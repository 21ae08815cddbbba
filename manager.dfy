/**
 * The reconciler manager: a map from node type to the reconciler that
 * handles nodes of that type, and the dispatch that refreshes a node's
 * resource state and then hands the node to its reconciler.
 */
module Manager {
  import opened Api
  import opened Resources
  import opened ResourceTree
  import opened Reconcilers

  /**
   * The services and files that reconcilers and refreshers reach, as
   * functions of the service calls made so far: whether the next call
   * fails, and what a refresher reads.
   */
  datatype World = World(fails: seq<ServiceCall> -> ServiceCall -> bool, observe: seq<ServiceCall> -> Observed)

  class ReconcilerManager {
    /** The metadata handed to every reconciler added; Go's nil is `None`. */
    var common: Option<CommonMetadata>
    var reconcilers: map<NodeType, Reconciler>

    /** A manager holding only the no-op reconciler, registered for the root type. */
    constructor (metadata: Option<CommonMetadata>)
      ensures common == metadata
      ensures reconcilers.Keys == {Group} && fresh(reconcilers[Group]) && reconcilers[Group].kind == NoopKind
    {
      common := metadata;
      var noop := new Reconciler(NoopKind);
      reconcilers := map[Group := noop];
    }

    /** The registered reconcilers as the dispatcher sees them now. */
    ghost function Handlers(): (h: map<NodeType, Handler>)
      reads this, reconcilers.Values
      ensures h.Keys == reconcilers.Keys
      ensures forall t | t in h :: h[t] == reconcilers[t].Behaviour()
    {
      map t | t in reconcilers :: reconcilers[t].Behaviour()
    }

    /**
     * Hands the manager's common metadata to `reconciler` and registers it
     * for `key`, replacing any reconciler registered there. Every other key
     * keeps its reconciler, and, unless that is the same object, its handler.
     */
    method AddReconciler(key: NodeType, reconciler: Reconciler)
      modifies this`reconcilers, reconciler`common
      ensures reconcilers == old(reconcilers)[key := reconciler]
      ensures reconciler.common == (if reconciler.kind == NoopKind then old(reconciler.common) else common)
      ensures Handlers()[key] == Handler(reconciler.kind, if reconciler.kind == NoopKind then old(reconciler.common) else common)
      ensures forall t | t in old(reconcilers) && t != key && old(reconcilers[t]) != reconciler ::
        Handlers()[t] == old(Handlers()[t])
    {
      reconciler.SetCommonMetadata(common);
      reconcilers := reconcilers[key := reconciler];
    }

    /**
     * Runs `node`'s refresher, reading the world as it stands after the
     * calls in `log`, and then the reconciler registered for the node's
     * type, which therefore sees the refreshed resource state. The outcome
     * is the reconciler's, unchanged.
     */
    method Reconcile(node: Node, world: World, log: seq<ServiceCall>) returns (o: Outcome)
      requires node.ty in reconcilers
      requires node.refresher.Some? ==> node.refresher.value.CanRun(world.observe(log))
      requires !reconcilers[node.ty].Behaviour().Panics(node.state, node.metadata,
                                                       Refreshed(node.refresher, node.resourceState, world.observe(log)))
      modifies node`resourceState
      ensures node.resourceState == Refreshed(node.refresher, old(node.resourceState), world.observe(log))
      ensures o == reconcilers[node.ty].Behaviour().Run(node.state, node.metadata, node.resourceState, world.fails(log))
    {
      node.RefreshState(world.observe(log));
      o := reconcilers[node.ty].Reconcile(node, world.fails(log));
    }
  }
}
