/**
 * Dispatching a tree: every node is handed to the reconciler manager,
 * parent before children, children in order, and the walk stops at the
 * first error. `Synchronize` first relabels a shallow copy of the desired
 * tree against the current one.
 */
module Synchronization {
  import opened Api
  import opened Resources
  import opened ApplyFunctions
  import opened ResourceTree
  import opened Reconcilers
  import opened Manager

  /** The fields of a node that reconciling it reads. */
  datatype NodeView = NodeView(state: NodeState, metadata: Metadata, refresher: Option<Refresher>, resourceState: ResourceState)

  /** Reconciling one node: its refreshed resource state and the outcome, or `panics` where the program crashes. */
  datatype Step = Step(panics: bool, refreshed: ResourceState, outcome: Outcome)

  /**
   * Reconciling a node of type `ty` whose fields are `v` with the handlers
   * `handlers`, after the calls in `log`. It crashes when no handler is
   * registered for `ty`, when the refresher cannot read the VPC outputs, or
   * when the handler dereferences nil.
   */
  function StepOf(handlers: map<NodeType, Handler>, world: World, ty: NodeType, v: NodeView, log: seq<ServiceCall>): Step {
    var obs := world.observe(log);
    if ty !in handlers || (v.refresher.Some? && !v.refresher.value.CanRun(obs)) then Step(true, v.resourceState, Idle)
    else
      var rs := Refreshed(v.refresher, v.resourceState, obs);
      var h := handlers[ty];
      if h.Panics(v.state, v.metadata, rs) then Step(true, rs, Idle)
      else Step(false, rs, h.Run(v.state, v.metadata, rs, world.fails(log)))
  }

  /**
   * What a walk depends on besides the tree: how one node is reconciled, and
   * each node's resource state as it was when the walk began.
   */
  datatype Env = Env(step: (NodeType, NodeView, seq<ServiceCall>) -> Step, views: map<Node, ResourceState>)

  /** `e` reconciles a node as a manager with these handlers does in this world. */
  ghost predicate Wired(e: Env, handlers: map<NodeType, Handler>, world: World) {
    forall ty, v, log {:trigger StepOf(handlers, world, ty, v, log)} :: e.step(ty, v, log) == StepOf(handlers, world, ty, v, log)
  }

  /** The fields of `n` that reconciling it reads, its resource state as the walk began. */
  ghost function ViewOf(n: Node, e: Env): NodeView
    requires n in e.views
    reads n`state, n`metadata, n`refresher
  {
    NodeView(n.state, n.metadata, n.refresher, e.views[n])
  }

  /**
   * What dispatching a tree (or the subtrees of some children) comes to:
   * whether it crashes, the error it returns, all service calls made by then,
   * the nodes handed to a reconciler, in order, and their refreshed
   * resource states.
   */
  datatype Handled = Handled(panics: bool, err: Option<Error>, log: seq<ServiceCall>, visited: seq<Node>,
                             refreshed: map<Node, ResourceState>)

  /** Dispatching the tree rooted at `n` after the calls in `log`. */
  ghost function Handling(n: Node, e: Env, log: seq<ServiceCall>): Handled
    requires n.Valid() && n.repr <= e.views.Keys
    reads n`repr, n.repr`repr, n.repr`children, n.repr`state, n.repr`metadata, n.repr`refresher
    decreases n.repr, 1
  {
    var s := e.step(n.ty, ViewOf(n, e), log);
    if s.panics then Handled(true, None, log, [n], map[])
    else if s.outcome.err.Some? then
      Handled(false, Some(Wrapped(ReconcilingNode, s.outcome.err.value)), log + s.outcome.calls, [n], map[n := s.refreshed])
    else
      Then(Handled(false, None, log, [n], map[n := s.refreshed]), HandlingFrom(n, 0, e, log + s.outcome.calls))
  }

  /** Dispatching the subtrees of `n`'s children from the `i`-th on, one after the other, until one fails. */
  ghost function HandlingFrom(n: Node, i: nat, e: Env, log: seq<ServiceCall>): Handled
    requires n.Valid() && i <= |n.children| && n.repr <= e.views.Keys
    reads n`repr, n.repr`repr, n.repr`children, n.repr`state, n.repr`metadata, n.repr`refresher
    decreases n.repr, 0, |n.children| - i
  {
    if i == |n.children| then Handled(false, None, log, [], map[])
    else
      n.ChildValid(i);
      var r := Handling(n.children[i], e, log);
      if r.panics then r
      else if r.err.Some? then r.(err := Some(Wrapped(HandlingNode, r.err.value)))
      else
        Then(r, HandlingFrom(n, i + 1, e, r.log))
  }

  /** `rest` dispatched after `first`: the nodes and refreshed states of both, and the outcome of `rest`. */
  function Then(first: Handled, rest: Handled): Handled {
    rest.(visited := first.visited + rest.visited, refreshed := first.refreshed + rest.refreshed)
  }

  /** Every node of `s` holds its refreshed resource state if it has one, and otherwise the one `views` records. */
  ghost predicate ResourceStatesAre(s: set<Node>, refreshed: map<Node, ResourceState>, views: map<Node, ResourceState>)
    reads s`resourceState
  {
    forall m | m in s :: m in views && m.resourceState == if m in refreshed then refreshed[m] else views[m]
  }

  /** After the nodes whose refreshed states are `refreshed`, the walk `rest` still yields `total`. */
  ghost predicate Agrees(rest: Handled, refreshed: map<Node, ResourceState>, total: Handled) {
    !rest.panics && total.err == rest.err && total.log == rest.log && total.refreshed == refreshed + rest.refreshed
  }

  lemma AgreesThen(first: Handled, rest: Handled, refreshed: map<Node, ResourceState>, total: Handled)
    requires Agrees(Then(first, rest), refreshed, total)
    ensures Agrees(rest, refreshed + first.refreshed, total)
  {
    assert refreshed + (first.refreshed + rest.refreshed) == (refreshed + first.refreshed) + rest.refreshed;
  }

  /** After dispatching `n` and the first `i` children, the rest of the walk still yields `total`. */
  ghost predicate Pending(n: Node, i: nat, e: Env, log: seq<ServiceCall>, refreshed: map<Node, ResourceState>, total: Handled)
    requires n.Valid() && i <= |n.children| && n.repr <= e.views.Keys
    reads n`repr, n.repr`repr, n.repr`children, n.repr`state, n.repr`metadata, n.repr`refresher
  {
    Agrees(HandlingFrom(n, i, e, log), refreshed, total)
  }

  /**
   * Hands every node of the tree rooted at `n` to `manager`, parent before
   * children, children in order, stopping at the first error, which it
   * returns wrapped once per level. `calls` are the service calls made.
   */
  method HandleNode(manager: ReconcilerManager, n: Node, world: World, ghost e: Env, log: seq<ServiceCall>)
    returns (err: Option<Error>, calls: seq<ServiceCall>)
    requires n.Valid() && ResourceStatesAre(n.repr, map[], e.views) && Wired(e, manager.Handlers(), world)
    requires !Handling(n, e, log).panics
    modifies n.repr`resourceState
    ensures err == old(Handling(n, e, log)).err && log + calls == old(Handling(n, e, log)).log
    ensures ResourceStatesAre(n.repr, old(Handling(n, e, log)).refreshed, e.views)
    decreases n.repr, 3
  {
    ghost var s := e.step(n.ty, ViewOf(n, e), log);
    var o := ReconcileNode(manager, n, world, e, log);
    calls := o.calls;
    WalkKept(Probe(n, 0, e, log, log + calls));
    if o.err.Some? {
      err := Some(Wrapped(ReconcilingNode, o.err.value));
      return;
    }
    var more;
    err, more := HandleChildren(manager, n, world, e, log + calls, map[n := n.resourceState]);
    AppendAssociates(log, calls, more);
    calls := calls + more;
  }

  /** The refresher and reconciler of `n` alone, as the walk's step says. */
  method ReconcileNode(manager: ReconcilerManager, n: Node, world: World, ghost e: Env, log: seq<ServiceCall>)
    returns (o: Outcome)
    requires n.Valid() && ResourceStatesAre(n.repr, map[], e.views) && Wired(e, manager.Handlers(), world)
    requires !e.step(n.ty, ViewOf(n, e), log).panics
    modifies n`resourceState
    ensures o == e.step(n.ty, ViewOf(n, e), log).outcome
    ensures ResourceStatesAre(n.repr, map[n := e.step(n.ty, ViewOf(n, e), log).refreshed], e.views)
  {
    ghost var s := StepOf(manager.Handlers(), world, n.ty, ViewOf(n, e), log);
    assert n.Local();
    o := manager.Reconcile(n, world, log);
  }

  /** Dispatches the subtrees of `n`'s children in order, after `n` itself, whose refreshed state is `refreshed`. */
  method HandleChildren(manager: ReconcilerManager, n: Node, world: World, ghost e: Env, log: seq<ServiceCall>,
                        ghost refreshed: map<Node, ResourceState>)
    returns (err: Option<Error>, calls: seq<ServiceCall>)
    requires n.Valid() && n.repr <= e.views.Keys && Wired(e, manager.Handlers(), world)
    requires refreshed.Keys <= {n} && ResourceStatesAre(n.repr, refreshed, e.views)
    requires !HandlingFrom(n, 0, e, log).panics
    modifies n.repr`resourceState
    ensures err == old(HandlingFrom(n, 0, e, log)).err && log + calls == old(HandlingFrom(n, 0, e, log)).log
    ensures ResourceStatesAre(n.repr, refreshed + old(HandlingFrom(n, 0, e, log)).refreshed, e.views)
    decreases n.repr, 2
  {
    ghost var total := HandlingFrom(n, 0, e, log).(refreshed := refreshed + HandlingFrom(n, 0, e, log).refreshed);
    ghost var now := refreshed;
    ghost var done: set<Node> := {};
    err, calls := None, [];
    assert log + calls == log;
    var i := 0;
    while i < |n.children| && err.None?
      invariant 0 <= i <= |n.children| && n.Valid() && n.repr <= e.views.Keys
      invariant done == Union(n.children[..i]) && now.Keys <= {n} + done
      invariant ResourceStatesAre(n.repr, now, e.views)
      invariant err.None? ==> Pending(n, i, e, log + calls, now, total)
      invariant err.Some? ==> err == total.err && log + calls == total.log && now == total.refreshed
    {
      err, calls, now, done := HandleChild(manager, n, world, e, log, i, calls, now, done, total);
      i := i + 1;
    }
  }

  /** One step of `HandleChildren`'s loop: the subtree of the `i`-th child. */
  method HandleChild(manager: ReconcilerManager, n: Node, world: World, ghost e: Env, log: seq<ServiceCall>, i: nat,
                     calls: seq<ServiceCall>, ghost refreshed: map<Node, ResourceState>, ghost done: set<Node>,
                     ghost total: Handled)
    returns (err: Option<Error>, calls': seq<ServiceCall>, ghost refreshed': map<Node, ResourceState>, ghost done': set<Node>)
    requires n.Valid() && i < |n.children| && n.repr <= e.views.Keys && Wired(e, manager.Handlers(), world)
    requires done == Union(n.children[..i]) && refreshed.Keys <= {n} + done
    requires ResourceStatesAre(n.repr, refreshed, e.views)
    requires Pending(n, i, e, log + calls, refreshed, total)
    modifies n.repr`resourceState
    ensures n.Valid()
    ensures done' == Union(n.children[..i + 1]) && refreshed'.Keys <= {n} + done'
    ensures ResourceStatesAre(n.repr, refreshed', e.views)
    ensures err.None? ==> Pending(n, i + 1, e, log + calls', refreshed', total)
    ensures err.Some? ==> err == total.err && log + calls' == total.log && refreshed' == total.refreshed
    decreases n.repr, 1
  {
    var child := n.children[i];
    ChildWalk(n, i, e, log + calls, refreshed, total);
    ghost var r := Handling(child, e, log + calls);
    var err', more := HandleSubtree(manager, n, i, child, world, e, log + calls);
    ChildRefreshed(Refresh(n, child, refreshed, r.refreshed, e.views));
    calls' := calls + more;
    AppendAssociates(log, calls, more);
    refreshed' := refreshed + r.refreshed;
    done' := done + child.repr;
    if err'.Some? {
      err := Some(Wrapped(HandlingNode, err'.value));
    } else {
      err := None;
    }
  }

  /**
   * What dispatching the subtree of the `i`-th child of `n` contributes to
   * the walk over `n`'s children, whose remainder from `i` on yields `total`.
   */
  lemma ChildWalk(n: Node, i: nat, e: Env, log: seq<ServiceCall>, refreshed: map<Node, ResourceState>, total: Handled)
    requires n.Valid() && i < |n.children| && n.repr <= e.views.Keys
    requires refreshed.Keys <= {n} + Union(n.children[..i]) && ResourceStatesAre(n.repr, refreshed, e.views)
    requires Pending(n, i, e, log, refreshed, total)
    ensures n.children[i].Valid() && n.children[i].repr < n.repr
    ensures Union(n.children[..i + 1]) == Union(n.children[..i]) + n.children[i].repr
    ensures Union(n.children[..i + 1]) <= n.repr - {n}
    ensures ResourceStatesAre(n.children[i].repr, map[], e.views)
    ensures forall m | m in n.children[i].repr :: m !in refreshed
    ensures var r := Handling(n.children[i], e, log);
      !r.panics && r.refreshed.Keys <= n.children[i].repr &&
      (r.err.Some? ==> total.err == Some(Wrapped(HandlingNode, r.err.value)) && total.log == r.log &&
                       total.refreshed == refreshed + r.refreshed) &&
      (r.err.None? ==> Pending(n, i + 1, e, r.log, refreshed + r.refreshed, total))
  {
    var child := n.children[i];
    n.ChildValid(i);
    n.ChildrenBefore(i);
    var r := Handling(child, e, log);
    var rest := HandlingFrom(n, i + 1, e, r.log);
    assert r.err.None? ==> HandlingFrom(n, i, e, log) == Then(r, rest);
    HandlingRefreshesWithin(child, e, log);
    Untouched(child.repr, n.repr, refreshed, e.views);
    if r.err.None? {
      AgreesThen(r, rest, refreshed, total);
    }
  }

  /** The subtree of the `i`-th child of `n`, dispatched; the tree above it is left as it was. */
  method HandleSubtree(manager: ReconcilerManager, n: Node, i: nat, child: Node, world: World, ghost e: Env,
                       log: seq<ServiceCall>)
    returns (err: Option<Error>, calls: seq<ServiceCall>)
    requires n.Valid() && i < |n.children| && child == n.children[i] && n.repr <= e.views.Keys
    requires child.Valid() && child.repr < n.repr && Wired(e, manager.Handlers(), world)
    requires ResourceStatesAre(child.repr, map[], e.views) && !Handling(child, e, log).panics
    modifies child.repr`resourceState
    ensures n.Valid() && n.repr == old(n.repr) && n.children == old(n.children)
    ensures forall k | 0 <= k <= |n.children| :: Union(n.children[..k]) == old(Union(n.children[..k]))
    ensures HandlingFrom(n, i + 1, e, log + calls) == old(HandlingFrom(n, i + 1, e, log + calls))
    ensures err == old(Handling(child, e, log)).err && log + calls == old(Handling(child, e, log)).log
    ensures ResourceStatesAre(child.repr, old(Handling(child, e, log)).refreshed, e.views)
    ensures forall m | m in old(n.repr) && m !in child.repr :: m.resourceState == old(m.resourceState)
    decreases n.repr, 0
  {
    err, calls := HandleNode(manager, child, world, e, log);
    WalkKept(Probe(n, i + 1, e, log, log + calls));
  }

  /** Nodes of `s` that the walk has not refreshed still hold the states it began with. */
  lemma Untouched(s: set<Node>, all: set<Node>, refreshed: map<Node, ResourceState>, views: map<Node, ResourceState>)
    requires s <= all && ResourceStatesAre(all, refreshed, views)
    requires forall m | m in s :: m !in refreshed
    ensures ResourceStatesAre(s, map[], views)
  {
  }

  /** The nodes of a walk step, for `ChildRefreshed`. */
  datatype Refresh = Refresh(n: Node, child: Node, before: map<Node, ResourceState>, fromChild: map<Node, ResourceState>,
                             views: map<Node, ResourceState>)

  /** Refreshing the child's subtree, and nothing else, adds its refreshed states to the parent's. */
  twostate lemma ChildRefreshed(p: Refresh)
    requires old(ResourceStatesAre(p.n.repr, p.before, p.views)) && p.n.repr == old(p.n.repr)
    requires p.child.repr <= p.n.repr && p.fromChild.Keys <= p.child.repr
    requires forall m | m in p.child.repr :: m !in p.before
    requires ResourceStatesAre(p.child.repr, p.fromChild, p.views)
    requires forall m | m in old(p.n.repr) && m !in p.child.repr :: m.resourceState == old(m.resourceState)
    ensures ResourceStatesAre(p.n.repr, p.before + p.fromChild, p.views)
  {
    forall m | m in p.n.repr
      ensures m in p.views && m.resourceState == if m in p.before + p.fromChild then (p.before + p.fromChild)[m] else p.views[m]
    {
      if m !in p.child.repr {
        assert m !in p.fromChild;
      }
    }
  }

  lemma AppendAssociates(a: seq<ServiceCall>, b: seq<ServiceCall>, c: seq<ServiceCall>)
    ensures a + (b + c) == (a + b) + c
  {
  }

  /** The fixed inputs of a dispatch walk, for `WalkKept`. */
  datatype Probe = Probe(node: Node, i: nat, e: Env, log: seq<ServiceCall>, restLog: seq<ServiceCall>)

  /** Changing only resource states leaves the tree, and what dispatching it comes to, as it was. */
  twostate lemma WalkKept(p: Probe)
    requires old(p.node.Valid()) && old(p.node.repr) <= p.e.views.Keys && p.i <= |old(p.node.children)|
    requires forall m: Node | m in old(p.node.repr) ::
      m.repr == old(m.repr) && m.children == old(m.children) &&
      m.state == old(m.state) && m.metadata == old(m.metadata) && m.refresher == old(m.refresher)
    ensures p.node.Valid() && p.node.repr == old(p.node.repr) && p.node.children == old(p.node.children)
    ensures forall k | 0 <= k <= |p.node.children| :: Union(p.node.children[..k]) == old(Union(p.node.children[..k]))
    ensures Handling(p.node, p.e, p.log) == old(Handling(p.node, p.e, p.log))
    ensures HandlingFrom(p.node, p.i, p.e, p.restLog) == old(HandlingFrom(p.node, p.i, p.e, p.restLog))
  {
    p.node.TreesKept(p.node);
  }

  /** Dispatching a tree refreshes only nodes of that tree. */
  lemma {:induction false} HandlingRefreshesWithin(n: Node, e: Env, log: seq<ServiceCall>)
    requires n.Valid() && n.repr <= e.views.Keys
    ensures Handling(n, e, log).refreshed.Keys <= n.repr
    decreases n.repr, 1
  {
    var s := e.step(n.ty, ViewOf(n, e), log);
    if !s.panics && s.outcome.err.None? {
      HandlingFromRefreshesWithin(n, 0, e, log + s.outcome.calls);
    }
  }

  lemma {:induction false} HandlingFromRefreshesWithin(n: Node, i: nat, e: Env, log: seq<ServiceCall>)
    requires n.Valid() && i <= |n.children| && n.repr <= e.views.Keys
    ensures HandlingFrom(n, i, e, log).refreshed.Keys <= n.repr
    decreases n.repr, 0, |n.children| - i
  {
    if i < |n.children| {
      n.ChildValid(i);
      var r := Handling(n.children[i], e, log);
      HandlingRefreshesWithin(n.children[i], e, log);
      if !r.panics && r.err.None? {
        HandlingFromRefreshesWithin(n, i + 1, e, r.log);
      }
    }
  }

  /** Dispatching depends on the walk's starting resource states only through those of the nodes walked. */
  lemma {:induction false} HandlingLocal(n: Node, e: Env, e': Env, log: seq<ServiceCall>)
    requires n.Valid() && n.repr <= e.views.Keys && n.repr <= e'.views.Keys && e.step == e'.step
    requires forall m | m in n.repr :: e.views[m] == e'.views[m]
    ensures Handling(n, e, log) == Handling(n, e', log)
    decreases n.repr, 1
  {
    var s := e.step(n.ty, ViewOf(n, e), log);
    n.Below();
    if !s.panics && s.outcome.err.None? {
      HandlingFromLocal(n, n, 0, e, e', log + s.outcome.calls);
    }
  }

  /** Two nodes with the same children dispatch them alike when the starting resource states of their subtrees agree. */
  lemma {:induction false} HandlingFromLocal(a: Node, b: Node, i: nat, e: Env, e': Env, log: seq<ServiceCall>)
    requires a.Valid() && b.Valid() && a.children == b.children && i <= |a.children|
    requires a.repr <= e.views.Keys && b.repr <= e'.views.Keys && e.step == e'.step
    requires forall m | m in Union(a.children) :: m in e.views && m in e'.views && e.views[m] == e'.views[m]
    ensures HandlingFrom(a, i, e, log) == HandlingFrom(b, i, e', log)
    decreases a.repr, 0, |a.children| - i
  {
    if i < |a.children| {
      a.ChildValid(i);
      b.ChildValid(i);
      UnionContains(a.children, i);
      var child := a.children[i];
      HandlingLocal(child, e, e', log);
      var r := Handling(child, e, log);
      if !r.panics && r.err.None? {
        HandlingFromLocal(a, b, i + 1, e, e', r.log);
      }
    }
  }

  /** The resource state of every node of `s`. */
  ghost function ResourceStates(s: set<Node>): (views: map<Node, ResourceState>)
    reads s`resourceState
    ensures views.Keys == s && ResourceStatesAre(s, map[], views)
  {
    map m | m in s :: m.resourceState
  }

  /** The walk's step as a manager with these handlers takes it in this world. */
  function StepFn(handlers: map<NodeType, Handler>, world: World): (NodeType, NodeView, seq<ServiceCall>) -> Step {
    (ty, v, log) => StepOf(handlers, world, ty, v, log)
  }

  /** Being wired does not depend on the resource states recorded. */
  lemma WiredViews(e: Env, e': Env, handlers: map<NodeType, Handler>, world: World)
    requires Wired(e, handlers, world) && e'.step == e.step
    ensures Wired(e', handlers, world)
  {
  }

  /** `e`, where every node is first relabelled by `fn` against `found`. */
  function Overlaid(e: Env, fn: ApplyFn, found: map<NodeType, NodeState>): Env {
    Env((ty, v: NodeView, log) => e.step(ty, v.(state := fn.Label(found, ty, v.state)), log), e.views)
  }

  /** The fixed inputs of an overlaid walk, for `OverlaidHandling`. */
  datatype Overlay = Overlay(n: Node, i: nat, e: Env, fn: ApplyFn, found: map<NodeType, NodeState>, log: seq<ServiceCall>)

  /**
   * Relabelling a tree in place by `fn` and dispatching it comes to
   * dispatching the tree as it was, with every node relabelled on the way.
   */
  twostate lemma {:induction false} OverlaidHandling(p: Overlay)
    requires old(p.n.Valid()) && old(p.n.repr) <= p.e.views.Keys
    requires Kept(old(p.n.repr)) && RelabelledBy(old(p.n.repr), p.fn, p.found)
    ensures p.n.Valid()
    ensures Handling(p.n, p.e, p.log) == old(Handling(p.n, Overlaid(p.e, p.fn, p.found), p.log))
    decreases old(p.n.repr), 1
  {
    p.n.TreesKept(p.n);
    var s := p.e.step(p.n.ty, ViewOf(p.n, p.e), p.log);
    assert s == old(Overlaid(p.e, p.fn, p.found).step(p.n.ty, ViewOf(p.n, Overlaid(p.e, p.fn, p.found)), p.log));
    if !s.panics && s.outcome.err.None? {
      OverlaidHandlingFrom(p.(i := 0, log := p.log + s.outcome.calls));
    }
  }

  /** `OverlaidHandling` for the subtrees of the children from the `i`-th on; the node itself need not be relabelled. */
  twostate lemma {:induction false} OverlaidHandlingFrom(p: Overlay)
    requires old(p.n.Valid()) && p.n.Valid() && old(p.n.repr) <= p.e.views.Keys && p.i <= |old(p.n.children)|
    requires Kept(old(p.n.repr)) && RelabelledBy(old(p.n.repr) - {p.n}, p.fn, p.found)
    ensures HandlingFrom(p.n, p.i, p.e, p.log) == old(HandlingFrom(p.n, p.i, Overlaid(p.e, p.fn, p.found), p.log))
    decreases old(p.n.repr), 0, |old(p.n.children)| - p.i
  {
    if p.i < |p.n.children| {
      p.n.ChildValid(p.i);
      var child := p.n.children[p.i];
      assert old(child.Valid());
      OverlaidHandling(p.(n := child));
      var r := Handling(child, p.e, p.log);
      assert r == old(Handling(child, Overlaid(p.e, p.fn, p.found), p.log));
      if !r.panics && r.err.None? {
        OverlaidHandlingFrom(p.(i := p.i + 1, log := r.log));
        assert HandlingFrom(p.n, p.i, p.e, p.log) == Then(r, HandlingFrom(p.n, p.i + 1, p.e, r.log));
        assert old(HandlingFrom(p.n, p.i, Overlaid(p.e, p.fn, p.found), p.log))
            == Then(r, old(HandlingFrom(p.n, p.i + 1, Overlaid(p.e, p.fn, p.found), r.log)));
        assert HandlingFrom(p.n, p.i, p.e, p.log) == old(HandlingFrom(p.n, p.i, Overlaid(p.e, p.fn, p.found), p.log));
      } else {
        assert HandlingFrom(p.n, p.i, p.e, p.log) == old(HandlingFrom(p.n, p.i, Overlaid(p.e, p.fn, p.found), p.log));
      }
    } else {
      assert HandlingFrom(p.n, p.i, p.e, p.log) == old(HandlingFrom(p.n, p.i, Overlaid(p.e, p.fn, p.found), p.log));
    }
  }

  /**
   * What `Synchronize` comes to, from the trees it is given: dispatching the
   * desired tree with the manager's reconcilers, as if each node had first
   * been relabelled against the node of its type in the current tree.
   */
  ghost function SynchronizePlan(manager: ReconcilerManager, desired: Node, current: Node, world: World,
                                 log: seq<ServiceCall>): Handled
    requires desired.Valid() && current.Valid()
    reads manager, manager.reconcilers.Values
    reads desired`repr, desired.repr`repr, desired.repr`children, desired.repr`state, desired.repr`metadata,
          desired.repr`refresher, desired.repr`resourceState
    reads current`repr, current.repr`repr, current.repr`children, current.repr`state
  {
    Handling(desired, Overlaid(WalkEnv(manager, desired, world), ApplyCurrentState, current.StatesByType()), log)
  }

  /** The walk of the tree rooted at `n` with the manager's reconcilers, from the resource states its nodes hold now. */
  ghost function WalkEnv(manager: ReconcilerManager, n: Node, world: World): (e: Env)
    reads manager, manager.reconcilers.Values, n`repr, n.repr`resourceState
    ensures Wired(e, manager.Handlers(), world) && e.views.Keys == n.repr && ResourceStatesAre(n.repr, map[], e.views)
  {
    Env(StepFn(manager.Handlers(), world), ResourceStates(n.repr))
  }

  /** `Handling` at a node whose own step is `s`, with `rest` the dispatch of its children. */
  function Rooted(n: Node, s: Step, rest: Handled, log: seq<ServiceCall>): Handled {
    if s.panics then Handled(true, None, log, [n], map[])
    else if s.outcome.err.Some? then
      Handled(false, Some(Wrapped(ReconcilingNode, s.outcome.err.value)), log + s.outcome.calls, [n], map[n := s.refreshed])
    else
      Then(Handled(false, None, log, [n], map[n := s.refreshed]), rest)
  }

  /** A copy of `orig` that sees, in `e'`, what `orig` sees in `e` is dispatched as `orig` is, but for its root. */
  lemma CopyHandling(copy: Node, orig: Node, e: Env, e': Env, log: seq<ServiceCall>, s: Step, rest: Handled)
    requires copy.Valid() && orig.Valid() && copy.children == orig.children && e.step == e'.step
    requires copy.repr <= e'.views.Keys && orig.repr <= e.views.Keys
    requires forall m | m in Union(orig.children) :: m in e.views && m in e'.views && e.views[m] == e'.views[m]
    requires e'.step(copy.ty, ViewOf(copy, e'), log) == s
    requires !s.panics && s.outcome.err.None? ==> HandlingFrom(orig, 0, e, log + s.outcome.calls) == rest
    ensures Handling(copy, e', log) == Rooted(copy, s, rest, log)
  {
    if !s.panics && s.outcome.err.None? {
      HandlingFromLocal(copy, orig, 0, e', e, log + s.outcome.calls);
    }
  }

  /** Two walks that agree on their outcome and on what they refreshed in `s`. */
  ghost predicate SameOn(s: set<Node>, h: Handled, h': Handled) {
    h.panics == h'.panics && h.err == h'.err && h.log == h'.log &&
    forall m | m in s :: (m in h.refreshed <==> m in h'.refreshed) && (m in h.refreshed ==> h.refreshed[m] == h'.refreshed[m])
  }

  /** `diff` is a shallow copy of the root `desired`: the same fields, the same children, itself in place of `desired`. */
  ghost predicate CopyOf(diff: Node, desired: Node)
    reads diff, desired, diff.repr`repr, diff.repr`children, desired.repr`repr, desired.repr`children
  {
    diff.Valid() && desired.Valid() && diff !in desired.repr && diff.repr == desired.repr - {desired} + {diff} &&
    diff.ty == desired.ty && diff.state == desired.state && diff.children == desired.children &&
    diff.metadata == desired.metadata && diff.refresher == desired.refresher && diff.resourceState == desired.resourceState
  }

  /** `e`, with the copy `diff` seeing the resource state recorded for `desired`. */
  function Rebased(e: Env, diff: Node, desired: Node): Env
    requires desired in e.views
  {
    Env(e.step, e.views[diff := e.views[desired]])
  }

  /**
   * The copy `diff` of the root `desired`, seeing what `desired` sees
   * relabelled, is dispatched as `desired` would be, but for the root.
   */
  lemma CopyAgrees(diff: Node, desired: Node, e: Env, log: seq<ServiceCall>, s: Step, rest: Handled, plan: Handled)
    requires diff.Valid() && desired.Valid() && diff.children == desired.children
    requires diff.repr == desired.repr - {desired} + {diff}
    requires desired.repr <= e.views.Keys
    requires e.step(diff.ty, ViewOf(diff, Rebased(e, diff, desired)), log) == s
    requires !s.panics && s.outcome.err.None? ==> HandlingFrom(desired, 0, e, log + s.outcome.calls) == rest
    requires plan == Rooted(desired, s, rest, log)
    ensures diff.repr <= Rebased(e, diff, desired).views.Keys
    ensures SameOn(desired.repr - {desired}, Handling(diff, Rebased(e, diff, desired), log), plan)
  {
    desired.Below();
    diff.Below();
    CopyHandling(diff, desired, e, Rebased(e, diff, desired), log, s, rest);
  }

  /** The fixed inputs of `HandleDiff`, for `DiffAgrees`. */
  datatype Sync = Sync(diff: Node, desired: Node, current: Node, e: Env, log: seq<ServiceCall>)

  /**
   * Once the copy `diff` has been relabelled against the current tree, it
   * is dispatched as `SynchronizePlan` says the desired tree would be, but
   * for the root.
   */
  twostate lemma DiffAgrees(p: Sync)
    requires old(CopyOf(p.diff, p.desired)) && old(p.current.Valid()) && old(p.desired.repr) <= p.e.views.Keys
    requires unchanged(p.desired) && Kept(old(p.diff.repr))
    requires RelabelledBy(old(p.diff.repr), ApplyCurrentState, old(p.current.StatesByType()))
    ensures p.diff.Valid() && p.diff.repr <= Rebased(p.e, p.diff, p.desired).views.Keys
    ensures SameOn(old(p.desired.repr) - {p.desired}, Handling(p.diff, Rebased(p.e, p.diff, p.desired), p.log),
                   old(Handling(p.desired, Overlaid(p.e, ApplyCurrentState, p.current.StatesByType()), p.log)))
  {
    var found := old(p.current.StatesByType());
    var oe := Overlaid(p.e, ApplyCurrentState, found);
    var s := old(oe.step(p.desired.ty, ViewOf(p.desired, oe), p.log));
    var rest := if !s.panics && s.outcome.err.None? then old(HandlingFrom(p.desired, 0, oe, p.log + s.outcome.calls))
                else Handled(false, None, p.log, [], map[]);
    var plan := old(Handling(p.desired, Overlaid(p.e, ApplyCurrentState, p.current.StatesByType()), p.log));
    assert plan == Rooted(p.desired, s, rest, p.log);
    p.diff.TreesKept(p.diff);
    assert Kept(old(p.desired.repr)) && RelabelledBy(old(p.desired.repr) - {p.desired}, ApplyCurrentState, found);
    p.desired.TreesKept(p.desired);
    if !s.panics && s.outcome.err.None? {
      OverlaidHandlingFrom(Overlay(p.desired, 0, p.e, ApplyCurrentState, found, p.log + s.outcome.calls));
    }
    CopyAgrees(p.diff, p.desired, p.e, p.log, s, rest, plan);
  }

  /** `ResourceStatesAre` for part of a tree, with the refreshed states of another walk that agrees there. */
  lemma ResourceStatesWithin(s: set<Node>, t: set<Node>, h: Handled, h': Handled, views: map<Node, ResourceState>,
                             views': map<Node, ResourceState>)
    requires s <= t && ResourceStatesAre(t, h.refreshed, views) && SameOn(s, h, h')
    requires forall m | m in s :: m in views && m in views' && views[m] == views'[m]
    ensures ResourceStatesAre(s, h'.refreshed, views')
  {
  }

  /**
   * Relabels a copy of the desired root, which shares the desired tree's
   * children, against the current tree and dispatches it. The desired root
   * keeps its state and resource state; every other node of the desired
   * tree is relabelled, and refreshed as far as the walk got, in place. The
   * error and the calls are those `SynchronizePlan` predicts.
   */
  method Synchronize(manager: ReconcilerManager, desired: Node, current: Node, world: World, log: seq<ServiceCall>,
                     ghost plan: Handled)
    returns (err: Option<Error>, calls: seq<ServiceCall>)
    requires desired.Valid() && current.Valid() && desired.repr !! current.repr
    requires current.Covers(desired.repr)
    requires plan == SynchronizePlan(manager, desired, current, world, log) && !plan.panics
    modifies desired.repr`state, desired.repr`resourceState
    ensures desired.state == old(desired.state) && desired.resourceState == old(desired.resourceState)
    ensures forall m | m in old(desired.repr) && m != desired ::
      m.state == ApplyCurrentState.Label(old(current.StatesByType()), m.ty, old(m.state))
    ensures err == plan.err
    ensures log + calls == plan.log
    ensures ResourceStatesAre(old(desired.repr) - {desired}, plan.refreshed,
                              old(ResourceStates(desired.repr)))
  {
    var diff := new Node.Copy(desired);
    assert unchanged(desired.repr) && unchanged(current.repr);
    err, calls := HandleDiff(manager, diff, desired, current, world, log, WalkEnv(manager, desired, world), plan);
  }

  /** `Synchronize` once the copy `diff` of the desired root is made: relabel it and dispatch it. */
  method HandleDiff(manager: ReconcilerManager, diff: Node, desired: Node, current: Node, world: World,
                    log: seq<ServiceCall>, ghost e: Env, ghost plan: Handled)
    returns (err: Option<Error>, calls: seq<ServiceCall>)
    requires CopyOf(diff, desired) && current.Valid() && desired.repr !! current.repr && diff !in current.repr
    requires current.Covers(desired.repr)
    requires Wired(e, manager.Handlers(), world) && e.views.Keys == desired.repr
    requires ResourceStatesAre(desired.repr, map[], e.views)
    requires plan == Handling(desired, Overlaid(e, ApplyCurrentState, current.StatesByType()), log) && !plan.panics
    modifies diff.repr`state, diff.repr`resourceState
    ensures unchanged(desired)
    ensures diff.state == ApplyCurrentState.Label(old(current.StatesByType()), diff.ty, old(diff.state))
    ensures forall m | m in old(desired.repr) && m != desired ::
      m.state == ApplyCurrentState.Label(old(current.StatesByType()), m.ty, old(m.state))
    ensures err == plan.err
    ensures log + calls == plan.log
    ensures ResourceStatesAre(old(desired.repr) - {desired}, plan.refreshed, e.views)
  {
    RelabelDiff(diff, desired, current, e, log, plan);
    err, calls := DispatchDiff(manager, diff, desired, world, e, log, plan);
  }

  /** Dispatches the relabelled copy `diff`; its outcome is `plan`'s, and so are the resource states of the nodes below the root. */
  method DispatchDiff(manager: ReconcilerManager, diff: Node, desired: Node, world: World, ghost e: Env,
                      log: seq<ServiceCall>, ghost plan: Handled)
    returns (err: Option<Error>, calls: seq<ServiceCall>)
    requires diff.Valid() && desired.Valid() && desired !in diff.repr && diff !in desired.repr && desired.repr - {desired} <= diff.repr
    requires desired.repr <= e.views.Keys && Wired(e, manager.Handlers(), world)
    requires ResourceStatesAre(diff.repr, map[], Rebased(e, diff, desired).views)
    requires SameOn(desired.repr - {desired}, Handling(diff, Rebased(e, diff, desired), log), plan) && !plan.panics
    modifies diff.repr`resourceState
    ensures unchanged(desired)
    ensures err == plan.err
    ensures log + calls == plan.log
    ensures ResourceStatesAre(desired.repr - {desired}, plan.refreshed, e.views)
  {
    ghost var e' := Rebased(e, diff, desired);
    ghost var h := Handling(diff, e', log);
    WiredViews(e, e', manager.Handlers(), world);
    err, calls := HandleNode(manager, diff, world, e', log);
    ResourceStatesWithin(desired.repr - {desired}, diff.repr, h, plan, e'.views, e.views);
  }

  /**
   * Relabels the copy `diff` of the desired root against the current tree:
   * dispatching it afterwards comes to what `SynchronizePlan` says of the
   * desired tree, but for the root.
   */
  method RelabelDiff(diff: Node, desired: Node, current: Node, ghost e: Env, ghost log: seq<ServiceCall>,
                     ghost plan: Handled)
    requires CopyOf(diff, desired) && current.Valid() && desired.repr !! current.repr && diff !in current.repr
    requires current.Covers(desired.repr) && e.views.Keys == desired.repr && ResourceStatesAre(desired.repr, map[], e.views)
    requires plan == Handling(desired, Overlaid(e, ApplyCurrentState, current.StatesByType()), log)
    modifies diff.repr`state
    ensures unchanged(desired) && diff.Valid() && diff.repr == old(diff.repr)
    ensures diff.state == ApplyCurrentState.Label(old(current.StatesByType()), diff.ty, old(diff.state))
    ensures forall m | m in old(desired.repr) && m != desired ::
      m.state == ApplyCurrentState.Label(old(current.StatesByType()), m.ty, old(m.state))
    ensures desired.Valid() && desired !in diff.repr && desired.repr - {desired} <= diff.repr
    ensures ResourceStatesAre(diff.repr, map[], Rebased(e, diff, desired).views)
    ensures SameOn(desired.repr - {desired}, Handling(diff, Rebased(e, diff, desired), log), plan)
  {
    CopyCovered(diff, desired, current);
    CopyViews(diff, desired, e);
    ghost var order := diff.ApplyFunction(ApplyCurrentState, current);
    assert unchanged(desired) && Kept(old(diff.repr));
    assert RelabelledBy(old(diff.repr), ApplyCurrentState, old(current.StatesByType()));
    DiffAgrees(Sync(diff, desired, current, e, log));
  }

  /** The copy holds the desired tree's nodes but its root, and sees the resource states the desired tree's nodes see. */
  lemma CopyViews(diff: Node, desired: Node, e: Env)
    requires CopyOf(diff, desired) && e.views.Keys == desired.repr && ResourceStatesAre(desired.repr, map[], e.views)
    ensures desired !in diff.repr && desired.repr - {desired} <= diff.repr
    ensures ResourceStatesAre(diff.repr, map[], Rebased(e, diff, desired).views)
  {
  }

  /** A copy of a root found throughout the current tree is found there too, and never in itself. */
  lemma CopyCovered(diff: Node, desired: Node, current: Node)
    requires CopyOf(diff, desired) && current.Valid() && desired.repr !! current.repr && diff !in current.repr
    requires current.Covers(desired.repr)
    ensures current.Covers(diff.repr) && current.Unaliased(diff.repr, diff.repr)
  {
    assert current.GetNode(diff) == current.GetNode(desired);
  }
}
