/**
 * What dispatching a tree comes to, whatever the reconcilers do: the nodes
 * handed to a reconciler are a prefix of the tree's pre-order, parent
 * before children and children in order, and all of it unless the walk
 * fails; the calls made only grow the log; an error names the node that
 * failed, wrapped once per level above it; and a tree none of whose
 * reconcilers makes a call makes none.
 */
module HandlingFacts {
  import opened Api
  import opened Resources
  import opened ResourceTree
  import opened Reconcilers
  import opened Manager
  import opened Synchronization

  /** The error `handleNode` returns: the failing reconciler's error wrapped as the node's, then once per level above it. */
  predicate NodeError(err: Error) {
    err.Wrapped? && (err.context == ReconcilingNode || (err.context == HandlingNode && NodeError(err.cause)))
  }

  lemma PrefixOfPrefix<T>(a: seq<T>, b: seq<T>, c: seq<T>)
    requires a <= b && b <= c
    ensures a <= c
  {
  }

  lemma PrefixPrepend<T>(x: seq<T>, a: seq<T>, b: seq<T>)
    requires a <= b
    ensures x + a <= x + b
  {
    assert (x + b)[..|x + a|] == x + b[..|a|];
  }

  lemma PrefixAppend<T>(a: seq<T>, b: seq<T>)
    ensures a <= a + b
  {
    assert (a + b)[..|a|] == a;
  }

  /** What a walk over the subtrees of some children comes to, whatever the reconcilers do. */
  ghost predicate FromShape(h: Handled, order: seq<Node>, log: seq<ServiceCall>) {
    h.visited <= order && log <= h.log &&
    (h.panics ==> h.err.None?) &&
    (h.err.Some? ==> NodeError(h.err.value) && h.err.value.context == HandlingNode) &&
    (!h.panics && h.err.None? ==> h.visited == order) &&
    (!h.panics ==> h.refreshed.Keys == set m | m in h.visited)
  }

  /**
   * Dispatching the tree rooted at `n` hands its nodes to the reconcilers
   * in pre-order, starting with `n`, and stops early only on an error or a
   * crash; the calls made extend the log; an error is the failing node's,
   * wrapped once per level; the refreshed nodes are exactly those visited.
   */
  lemma {:induction false} HandlingVisits(n: Node, e: Env, log: seq<ServiceCall>)
    requires n.Valid() && n.repr <= e.views.Keys
    ensures var h := Handling(n, e, log);
      h.visited <= n.PreOrder() && h.visited != [] && h.visited[0] == n && log <= h.log &&
      (h.panics ==> h.err.None?) &&
      (h.err.Some? ==> NodeError(h.err.value)) &&
      (!h.panics && h.err.None? ==> h.visited == n.PreOrder()) &&
      (!h.panics ==> h.refreshed.Keys == set m | m in h.visited)
    decreases n.repr, 1
  {
    var s := e.step(n.ty, ViewOf(n, e), log);
    var h := Handling(n, e, log);
    assert n.PreOrder() == [n] + n.PreOrderFrom(0);
    PrefixAppend(log, s.outcome.calls);
    if !s.panics && s.outcome.err.None? {
      var rest := HandlingFrom(n, 0, e, log + s.outcome.calls);
      HandlingFromVisits(n, 0, e, log + s.outcome.calls);
      PrefixPrepend([n], rest.visited, n.PreOrderFrom(0));
      PrefixOfPrefix(log, log + s.outcome.calls, rest.log);
    } else {
      PrefixAppend([n], n.PreOrderFrom(0));
    }
  }

  /** `HandlingVisits` for the subtrees of `n`'s children from the `i`-th on. */
  lemma {:induction false} HandlingFromVisits(n: Node, i: nat, e: Env, log: seq<ServiceCall>)
    requires n.Valid() && i <= |n.children| && n.repr <= e.views.Keys
    ensures FromShape(HandlingFrom(n, i, e, log), n.PreOrderFrom(i), log)
    decreases n.repr, 0, |n.children| - i
  {
    if i < |n.children| {
      n.ChildValid(i);
      var child := n.children[i];
      var r := Handling(child, e, log);
      HandlingVisits(child, e, log);
      assert n.PreOrderFrom(i) == child.PreOrder() + n.PreOrderFrom(i + 1);
      PrefixAppend(child.PreOrder(), n.PreOrderFrom(i + 1));
      if !r.panics && r.err.None? {
        var rest := HandlingFrom(n, i + 1, e, r.log);
        HandlingFromVisits(n, i + 1, e, r.log);
        PrefixPrepend(child.PreOrder(), rest.visited, n.PreOrderFrom(i + 1));
        PrefixOfPrefix(log, r.log, rest.log);
      } else {
        PrefixOfPrefix(r.visited, child.PreOrder(), n.PreOrderFrom(i));
      }
    }
  }

  /** No reconciler of the tree rooted at `n` makes a call, whatever was called before. */
  ghost predicate Quiet(n: Node, e: Env)
    requires n.repr <= e.views.Keys
    reads n`repr, n.repr`state, n.repr`metadata, n.repr`refresher
  {
    forall m, log | m in n.repr :: e.step(m.ty, ViewOf(m, e), log).outcome.calls == []
  }

  /** Dispatching a tree none of whose reconcilers makes a call makes no call. */
  lemma {:induction false} QuietHandling(n: Node, e: Env, log: seq<ServiceCall>)
    requires n.Valid() && n.repr <= e.views.Keys && Quiet(n, e)
    ensures Handling(n, e, log).log == log
    decreases n.repr, 1
  {
    var s := e.step(n.ty, ViewOf(n, e), log);
    assert s.outcome.calls == [];
    assert log + s.outcome.calls == log;
    if !s.panics && s.outcome.err.None? {
      QuietHandlingFrom(n, 0, e, log);
    }
  }

  lemma {:induction false} QuietHandlingFrom(n: Node, i: nat, e: Env, log: seq<ServiceCall>)
    requires n.Valid() && i <= |n.children| && n.repr <= e.views.Keys && Quiet(n, e)
    ensures HandlingFrom(n, i, e, log).log == log
    decreases n.repr, 0, |n.children| - i
  {
    if i < |n.children| {
      n.ChildValid(i);
      var child := n.children[i];
      QuietHandling(child, e, log);
      if !Handling(child, e, log).panics && Handling(child, e, log).err.None? {
        QuietHandlingFrom(n, i + 1, e, log);
      }
    }
  }

  /**
   * A manager's reconcilers make no call on a node in state Noop: when every
   * node of a tree is Noop, dispatching it makes no call.
   */
  lemma NoopTreeIsQuiet(n: Node, e: Env, handlers: map<NodeType, Handler>, world: World)
    requires n.repr <= e.views.Keys && Wired(e, handlers, world)
    requires forall m | m in n.repr :: m.state == Noop
    ensures Quiet(n, e)
  {
    forall m, log | m in n.repr
      ensures e.step(m.ty, ViewOf(m, e), log).outcome.calls == []
    {
      var s := StepOf(handlers, world, m.ty, ViewOf(m, e), log);
    }
  }
}
