/**
 * Applying an application: every node of the application's tree is first
 * relabelled by what the application declares, and the tree is then
 * dispatched to the reconciler manager as it stands after the relabelling.
 */
module ApplyApplication {
  import opened Api
  import opened Resources
  import opened ApplyFunctions
  import opened ResourceTree
  import opened Manager
  import opened Synchronization

  /**
   * What `SynchronizeApplication` comes to, from the tree it is given:
   * dispatching the tree with the manager's reconcilers, as if each node had
   * first been relabelled by the application's declaration.
   */
  ghost function ApplicationPlan(manager: ReconcilerManager, tree: Node, world: World, imageHasName: bool,
                                 log: seq<ServiceCall>): Handled
    requires tree.Valid()
    reads manager, manager.reconcilers.Values
    reads tree`repr, tree.repr`repr, tree.repr`children, tree.repr`state, tree.repr`metadata,
          tree.repr`refresher, tree.repr`resourceState
  {
    Handling(tree, Overlaid(WalkEnv(manager, tree, world), ApplyDesiredState(imageHasName), map[]), log)
  }

  /**
   * Relabels every node of the tree by the application's declaration, then
   * dispatches the tree. Every node ends up in the state the declaration
   * gives it; the error and the calls are those `ApplicationPlan` predicts,
   * and each node visited holds its refreshed resource state.
   */
  method SynchronizeApplication(manager: ReconcilerManager, tree: Node, world: World, imageHasName: bool,
                                log: seq<ServiceCall>, ghost plan: Handled)
    returns (err: Option<Error>, calls: seq<ServiceCall>)
    requires tree.Valid()
    requires plan == ApplicationPlan(manager, tree, world, imageHasName, log) && !plan.panics
    modifies tree.repr`state, tree.repr`resourceState
    ensures forall m | m in old(tree.repr) :: m.state == DesiredStateLabel(imageHasName, m.ty, old(m.state))
    ensures err == plan.err
    ensures log + calls == plan.log
    ensures ResourceStatesAre(old(tree.repr), plan.refreshed, old(ResourceStates(tree.repr)))
  {
    ghost var e := WalkEnv(manager, tree, world);
    RelabelApplication(tree, imageHasName, e, log, plan);
    err, calls := HandleNode(manager, tree, world, e, log);
  }

  /**
   * The relabelling step of `SynchronizeApplication`: afterwards, dispatching
   * the tree comes to `plan`.
   */
  method RelabelApplication(tree: Node, imageHasName: bool, ghost e: Env, ghost log: seq<ServiceCall>,
                            ghost plan: Handled)
    requires tree.Valid() && e.views.Keys == tree.repr && ResourceStatesAre(tree.repr, map[], e.views)
    requires plan == Handling(tree, Overlaid(e, ApplyDesiredState(imageHasName), map[]), log)
    modifies tree.repr`state
    ensures tree.Valid() && tree.repr == old(tree.repr)
    ensures forall m | m in tree.repr :: m.state == DesiredStateLabel(imageHasName, m.ty, old(m.state))
    ensures ResourceStatesAre(tree.repr, map[], e.views)
    ensures Handling(tree, e, log) == plan
  {
    ghost var order := tree.ApplyFunction(ApplyDesiredState(imageHasName), tree);
    assert Kept(old(tree.repr));
    assert RelabelledBy(old(tree.repr), ApplyDesiredState(imageHasName), map[]);
    OverlaidHandling(Overlay(tree, 0, e, ApplyDesiredState(imageHasName), map[], log));
  }
}
