/**
 * The callbacks handed to `ApplyFunction`. Each closure of the program
 * becomes one constructor, holding what the closure captured; `Run` is
 * the new state the closure gives its receiver.
 */
module ApplyFunctions {
  import opened Api
  import opened Resources

  /**
   * `ApplyCurrentState`'s relabelling: a desired state that the current
   * tree already has becomes Noop, any other desired state is kept.
   */
  function CurrentStateLabel(desired: NodeState, current: NodeState): (s: NodeState)
    ensures s == Noop || s == desired
    ensures s == Noop <==> desired == current || desired == Noop
  {
    if desired == current then Noop else desired
  }

  /**
   * The application relabelling: a container repository is wanted exactly
   * when the image has a name, an application is always wanted, and every
   * other node keeps its state.
   */
  function DesiredStateLabel(imageHasName: bool, ty: NodeType, s: NodeState): (r: NodeState)
    ensures ty == ContainerRepository ==> r == (if imageHasName then Present else Noop)
    ensures ty == Application ==> r == Present
    ensures ty != ContainerRepository && ty != Application ==> r == s
    ensures r == s || r == Present || r == Noop
  {
    match ty
    case ContainerRepository => if imageHasName then Present else Noop
    case Application => Present
    case _ => s
  }

  datatype ApplyFn =
    | ApplyCurrentState
    | ApplyDesiredState(imageHasName: bool)
  {
    /** Whether the callback looks at the node found in the target tree. */
    predicate ReadsTarget() {
      ApplyCurrentState?
    }

    /** `ApplyCurrentState` dereferences the target node, so it needs one. */
    predicate Accepts(target: Option<NodeState>) {
      ApplyCurrentState? ==> target.Some?
    }

    /** The state the callback gives a node of type `ty` and state `s`, given the target node's state. */
    function Run(ty: NodeType, s: NodeState, target: Option<NodeState>): (r: NodeState)
      requires Accepts(target)
      ensures ApplyCurrentState? ==> r == CurrentStateLabel(s, target.value)
      ensures ApplyDesiredState? ==> r == DesiredStateLabel(imageHasName, ty, s)
    {
      match this
      case ApplyCurrentState => CurrentStateLabel(s, target.value)
      case ApplyDesiredState(hasName) => DesiredStateLabel(hasName, ty, s)
    }

    /**
     * The state the callback gives a node of type `ty` in state `s`, where
     * `found` holds, by type, the states of the nodes a lookup in the target
     * tree finds; a node the callback cannot take keeps its state.
     */
    function Label(found: map<NodeType, NodeState>, ty: NodeType, s: NodeState): (r: NodeState)
      ensures ApplyCurrentState? ==> r == if ty in found then CurrentStateLabel(s, found[ty]) else s
      ensures ApplyDesiredState? ==> r == DesiredStateLabel(imageHasName, ty, s)
    {
      var seen := if ty in found then Some(found[ty]) else None;
      if Accepts(seen) then Run(ty, s, seen) else s
    }
  }
}
