/**
 * The resource tree: a typed n-ary tree of nodes, searched by type in
 * pre-order and rewritten in post-order against a second tree.
 *
 * A node's type never changes; its children are appended while the tree is
 * built, and its state, metadata, refresher and resource state are updated
 * in place. Each node carries the ghost set `repr` of the nodes of its
 * subtree; `Valid()` says these sets describe a tree.
 */
module ResourceTree {
  import opened Api
  import opened Resources
  import opened ApplyFunctions

  /** The first node of type `t` in `s`, or null. */
  function FirstOfType(s: seq<Node>, t: NodeType): (r: Node?)
    ensures r != null ==> r in s && r.ty == t
    ensures r == null <==> forall k :: 0 <= k < |s| ==> s[k].ty != t
  {
    if s == [] then null else if s[0].ty == t then s[0] else FirstOfType(s[1..], t)
  }

  lemma {:induction false} FirstOfTypeAppend(a: seq<Node>, b: seq<Node>, t: NodeType)
    ensures FirstOfType(a + b, t) == if FirstOfType(a, t) != null then FirstOfType(a, t) else FirstOfType(b, t)
  {
    if a != [] {
      assert (a + b)[1..] == a[1..] + b;
      FirstOfTypeAppend(a[1..], b, t);
    } else {
      assert a + b == b;
    }
  }

  /** The first node of type `t` is the one at `k` when no earlier node has that type. */
  lemma {:induction false} FirstOfTypeAt(s: seq<Node>, t: NodeType, k: nat)
    requires k < |s| && s[k].ty == t
    requires forall j :: 0 <= j < k ==> s[j].ty != t
    ensures FirstOfType(s, t) == s[k]
  {
    if k > 0 {
      FirstOfTypeAt(s[1..], t, k - 1);
    }
  }

  /** No node occurs twice. */
  ghost predicate Distinct(s: seq<Node>) {
    forall i, j :: 0 <= i < j < |s| ==> s[i] != s[j]
  }

  lemma DistinctAppend(a: seq<Node>, b: seq<Node>)
    requires Distinct(a) && Distinct(b)
    requires forall x :: x in a ==> x !in b
    ensures Distinct(a + b)
  {
    forall i, j | 0 <= i < j < |a + b|
      ensures (a + b)[i] != (a + b)[j]
    {
      if j >= |a| && i < |a| {
        assert (a + b)[i] in a && (a + b)[j] in b;
      }
    }
  }

  /** Two sequences that list two disjoint sets have no element in common. */
  lemma SeparateOrders(a: seq<Node>, b: seq<Node>, sa: set<Node>, sb: set<Node>)
    requires forall n :: n in a <==> n in sa
    requires forall n :: n in b <==> n in sb
    requires sa !! sb
    ensures forall x :: x in a ==> x !in b
  {
  }

  /** The nodes of the subtrees rooted at `cs`. */
  ghost function Union(cs: seq<Node>): set<Node>
    reads cs`repr
  {
    if cs == [] then {} else Union(cs[..|cs| - 1]) + cs[|cs| - 1].repr
  }

  lemma UnionAppend(cs: seq<Node>, c: Node)
    ensures Union(cs + [c]) == Union(cs) + c.repr
  {
    assert (cs + [c])[..|cs|] == cs;
  }

  lemma UnionStep(cs: seq<Node>, i: nat)
    requires i < |cs|
    ensures Union(cs[..i + 1]) == Union(cs[..i]) + cs[i].repr
  {
    assert cs[..i + 1] == cs[..i] + [cs[i]];
    UnionAppend(cs[..i], cs[i]);
  }

  /** A node of `Union(cs)` lies in the subtree of one of `cs`. */
  lemma {:induction false} UnionMember(cs: seq<Node>, n: Node) returns (k: nat)
    requires n in Union(cs)
    ensures k < |cs| && n in cs[k].repr
    decreases |cs|
  {
    if n in cs[|cs| - 1].repr {
      k := |cs| - 1;
    } else {
      k := UnionMember(cs[..|cs| - 1], n);
    }
  }

  lemma {:induction false} UnionContains(cs: seq<Node>, k: nat)
    requires k < |cs|
    ensures cs[k].repr <= Union(cs)
    decreases |cs|
  {
    if k < |cs| - 1 {
      UnionContains(cs[..|cs| - 1], k);
    }
  }

  lemma {:induction false} UnionExcludes(cs: seq<Node>, x: Node)
    requires forall i | 0 <= i < |cs| :: x !in cs[i].repr
    ensures x !in Union(cs)
    decreases |cs|
  {
    if cs != [] {
      UnionExcludes(cs[..|cs| - 1], x);
    }
  }

  /** Every node of `s` is in state `m[n]`. */
  ghost predicate StatesAre(s: set<Node>, m: map<Node, NodeState>)
    reads s`state
  {
    forall n | n in s :: n in m && n.state == m[n]
  }

  lemma StatesAreSubset(a: set<Node>, b: set<Node>, m: map<Node, NodeState>)
    requires a <= b && StatesAre(b, m)
    ensures StatesAre(a, m)
  {
  }

  /** `fn` can be run on every node of `s`, given what each node sees in the target tree. */
  ghost predicate Callable(s: set<Node>, fn: ApplyFn, before: map<Node, NodeState>, seen: map<Node, Option<NodeState>>) {
    forall n | n in s :: n in before && n in seen && fn.Accepts(seen[n])
  }

  /** Every node of `s` holds what `fn` makes of its starting state and of what it saw in the target tree. */
  ghost predicate Relabelled(s: set<Node>, fn: ApplyFn, before: map<Node, NodeState>, seen: map<Node, Option<NodeState>>)
    reads s`state
  {
    forall n | n in s :: n in before && n in seen && fn.Accepts(seen[n]) && n.state == fn.Run(n.ty, before[n], seen[n])
  }

  lemma RelabelledUnion(a: set<Node>, b: set<Node>, fn: ApplyFn, before: map<Node, NodeState>, seen: map<Node, Option<NodeState>>)
    requires Relabelled(a, fn, before, seen) && Relabelled(b, fn, before, seen)
    ensures Relabelled(a + b, fn, before, seen)
  {
  }

  /** Since the old state, the nodes of `s` have kept their children, subtrees, metadata and refreshers. */
  twostate predicate Kept(s: set<Node>)
    reads s
  {
    unchanged(s`repr, s`children, s`metadata, s`refresher)
  }

  /** Since the old state, every node of `s` has been relabelled by `fn` against the states `found` by type. */
  twostate predicate RelabelledBy(s: set<Node>, fn: ApplyFn, found: map<NodeType, NodeState>)
    reads s
  {
    forall m | m in s :: m.state == fn.Label(found, m.ty, old(m.state))
  }

  /** The fixed inputs of one `ApplyFunction` walk: the callback, the tree it looks nodes up in, and the starting states. */
  datatype Walk = Walk(fn: ApplyFn, target: Node, region: set<Node>, before: map<Node, NodeState>,
                       tbefore: map<Node, NodeState>, seen: map<Node, Option<NodeState>>)

  /** Every node of `s` is marked Present when `target` has no node of its type and Noop otherwise. */
  ghost predicate Marked(s: set<Node>, target: Node)
    requires target.Valid()
    reads s`state, target`repr, target.repr`repr, target.repr`children
  {
    forall n | n in s :: n.state == (if target.GetNode(n) == null then Present else Noop)
  }

  lemma MarkedUnion(a: set<Node>, b: set<Node>, target: Node)
    requires target.Valid() && Marked(a, target) && Marked(b, target)
    ensures Marked(a + b, target)
  {
  }

  class Node {
    const ty: NodeType
    var state: NodeState
    var metadata: Metadata
    var refresher: Option<Refresher>
    var resourceState: ResourceState
    var children: seq<Node>
    /** The nodes of the subtree rooted here, this one included. */
    ghost var repr: set<Node>

    /** This node's subtree is itself and its children's subtrees, which are disjoint and do not hold it. */
    ghost predicate Local()
      reads this`repr, this`children, repr`repr
    {
      this in repr &&
      (forall i | 0 <= i < |children| :: children[i] in repr && children[i].repr <= repr && this !in children[i].repr) &&
      (forall i, j | 0 <= i < j < |children| :: children[i].repr !! children[j].repr) &&
      repr == {this} + Union(children)
    }

    /** Every node of the subtree satisfies `Local()`: the subtree is a finite tree. */
    ghost predicate Valid()
      reads this`repr, repr`repr, repr`children
    {
      this in repr &&
      forall n {:trigger n.Local()} | n in repr :: n.repr <= repr && n.Local()
    }

    /** The subtree of a node of a valid tree is closed under taking subtrees. */
    lemma {:induction false} Closed(n: Node)
      requires Valid() && n in repr
      ensures forall m | m in n.repr :: m.repr <= n.repr
      decreases n.repr
    {
      assert n.Local();
      forall m | m in n.repr
        ensures m.repr <= n.repr
      {
        if m != n {
          var k := UnionMember(n.children, m);
          Closed(n.children[k]);
        }
      }
    }

    /** Every node of a valid tree is the root of a valid subtree. */
    lemma SubtreeValid(n: Node)
      requires Valid() && n in repr
      ensures n.Valid() && n.repr <= repr
    {
      assert n.Local();
      Closed(n);
      forall m | m in n.repr
        ensures m.repr <= n.repr && m.Local()
      {
        assert m.Local();
      }
    }

    /** What a parent knows of its `i`-th child. */
    lemma ChildValid(i: nat)
      requires Valid() && i < |children|
      ensures children[i].Valid() && children[i] in repr && children[i].repr < repr && this !in children[i].repr
    {
      assert Local();
      SubtreeValid(children[i]);
    }

    /** The subtrees of the first `i` children make up part of the tree below this node, and exclude the `i`-th. */
    lemma ChildrenBefore(i: nat)
      requires Valid() && i < |children|
      ensures children[i].repr !! Union(children[..i])
      ensures Union(children[..i + 1]) == Union(children[..i]) + children[i].repr
      ensures Union(children[..i + 1]) <= repr - {this}
    {
      assert Local();
      UnionStep(children, i);
      forall n | n in Union(children[..i])
        ensures n !in children[i].repr
      {
        var k := UnionMember(children[..i], n);
        assert children[..i][k] == children[k];
      }
      PrefixUnion(i + 1);
      UnionExcludes(children[..i + 1], this);
    }

    lemma {:induction false} PrefixUnion(i: nat)
      requires i <= |children|
      ensures Union(children[..i]) <= Union(children)
      decreases |children| - i
    {
      if i < |children| {
        UnionStep(children, i);
        PrefixUnion(i + 1);
      } else {
        assert children[..i] == children;
      }
    }

    /** A node whose children are valid, disjoint subtrees without it, and whose `repr` is their union, is valid. */
    lemma Join()
      requires forall i | 0 <= i < |children| :: children[i].Valid() && this !in children[i].repr
      requires forall i, j | 0 <= i < j < |children| :: children[i].repr !! children[j].repr
      requires repr == {this} + Union(children)
      ensures Valid()
    {
      forall i | 0 <= i < |children|
        ensures children[i] in repr && children[i].repr <= repr
      {
        assert children[i].Local();
        UnionContains(children, i);
      }
      assert Local();
      forall n | n in repr
        ensures n.repr <= repr && n.Local()
      {
        if n != this {
          var k := UnionMember(children, n);
          UnionContains(children, k);
          assert n.Local();
        }
      }
    }

    /** A fresh node of type `ty` and state `state`, with no metadata, refresher, resource state or children. */
    constructor (ty: NodeType, state: NodeState)
      ensures repr == {this}
      ensures this.ty == ty && this.state == state && children == []
      ensures metadata == NoMetadata && refresher.None? && resourceState == NoResourceState
    {
      this.ty := ty;
      this.state := state;
      children := [];
      metadata := NoMetadata;
      refresher := None;
      resourceState := NoResourceState;
      repr := {this};
    }

    /** A copy of `from`'s fields that shares its children (Go's `*node` struct copy). */
    constructor Copy(from: Node)
      requires from.Valid()
      ensures Valid() && repr == from.repr - {from} + {this}
      ensures ty == from.ty && state == from.state && metadata == from.metadata && refresher == from.refresher
      ensures resourceState == from.resourceState && children == from.children
    {
      ty := from.ty;
      state := from.state;
      metadata := from.metadata;
      refresher := from.refresher;
      resourceState := from.resourceState;
      children := from.children;
      repr := {this} + Union(from.children);
      new;
      assert from.Local();
      UnionExcludes(children, from);
      forall i | 0 <= i < |children|
        ensures children[i].Valid() && this !in children[i].repr
      {
        from.ChildValid(i);
      }
      Join();
    }

    /** Two nodes are equal when they have the same type; no other field is compared. */
    predicate Equals(other: Node?)
      ensures Equals(other) <==> other != null && other.ty == ty
    {
      if other == null then false else other.ty == ty
    }

    /** The nodes of this tree, each parent before its children, children in order. */
    ghost function PreOrder(): (s: seq<Node>)
      requires Valid()
      reads this`repr, repr`repr, repr`children
      ensures |s| > 0 && s[0] == this
      decreases repr, 1
    {
      [this] + PreOrderFrom(0)
    }

    /** The pre-orders of the subtrees of the children from the `i`-th on, one after the other. */
    ghost function PreOrderFrom(i: nat): seq<Node>
      requires Valid() && i <= |children|
      reads this`repr, repr`repr, repr`children
      decreases repr, 0, |children| - i
    {
      if i == |children| then []
      else
        ChildValid(i);
        children[i].PreOrder() + PreOrderFrom(i + 1)
    }

    /** The pre-orders of the subtrees of the first `i` children, one after the other. */
    ghost function PreOrderUpTo(i: nat): seq<Node>
      requires Valid() && i <= |children|
      reads this`repr, repr`repr, repr`children
      decreases repr, 0, i
    {
      if i == 0 then []
      else
        ChildValid(i - 1);
        PreOrderUpTo(i - 1) + children[i - 1].PreOrder()
    }

    /** The nodes of this tree, each parent after its children, children in order. */
    ghost function PostOrder(): seq<Node>
      requires Valid()
      reads this`repr, repr`repr, repr`children
      decreases repr, 1
    {
      PostOrderUpTo(|children|) + [this]
    }

    /** The post-orders of the subtrees of the first `i` children, one after the other. */
    ghost function PostOrderUpTo(i: nat): seq<Node>
      requires Valid() && i <= |children|
      reads this`repr, repr`repr, repr`children
      decreases repr, 0, i
    {
      if i == 0 then []
      else
        ChildValid(i - 1);
        PostOrderUpTo(i - 1) + children[i - 1].PostOrder()
    }

    lemma {:induction false} PreOrderSplit(i: nat)
      requires Valid() && i <= |children|
      ensures PreOrderFrom(0) == PreOrderUpTo(i) + PreOrderFrom(i)
      decreases i
    {
      if i > 0 {
        PreOrderSplit(i - 1);
      }
    }

    /** The pre-order lists every node of the tree exactly once. */
    lemma {:induction false} PreOrderEnumerates()
      requires Valid()
      ensures Distinct(PreOrder())
      ensures forall n :: n in PreOrder() <==> n in repr
      decreases repr, 1
    {
      PreOrderUpToEnumerates(|children|);
      PreOrderSplit(|children|);
      assert PreOrder() == [this] + PreOrderUpTo(|children|);
      assert children[..|children|] == children;
      Below();
      DistinctAppend([this], PreOrderUpTo(|children|));
    }

    lemma {:induction false} PreOrderUpToEnumerates(i: nat)
      requires Valid() && i <= |children|
      ensures Distinct(PreOrderUpTo(i))
      ensures forall n :: n in PreOrderUpTo(i) <==> n in Union(children[..i])
      decreases repr, 0, i
    {
      if i > 0 {
        var j := i - 1;
        ChildValid(j);
        ChildrenBefore(j);
        PreOrderUpToEnumerates(j);
        children[j].PreOrderEnumerates();
        SeparateOrders(PreOrderUpTo(j), children[j].PreOrder(), Union(children[..j]), children[j].repr);
        DistinctAppend(PreOrderUpTo(j), children[j].PreOrder());
      }
    }

    /** The post-order lists every node of the tree exactly once. */
    lemma {:induction false} PostOrderEnumerates()
      requires Valid()
      ensures Distinct(PostOrder())
      ensures forall n :: n in PostOrder() <==> n in repr
      decreases repr, 1
    {
      PostOrderUpToEnumerates(|children|);
      assert children[..|children|] == children;
      Below();
      DistinctAppend(PostOrderUpTo(|children|), [this]);
    }

    lemma {:induction false} PostOrderUpToEnumerates(i: nat)
      requires Valid() && i <= |children|
      ensures Distinct(PostOrderUpTo(i))
      ensures forall n :: n in PostOrderUpTo(i) <==> n in Union(children[..i])
      decreases repr, 0, i
    {
      if i > 0 {
        var j := i - 1;
        ChildValid(j);
        ChildrenBefore(j);
        PostOrderUpToEnumerates(j);
        children[j].PostOrderEnumerates();
        SeparateOrders(PostOrderUpTo(j), children[j].PostOrder(), Union(children[..j]), children[j].repr);
        DistinctAppend(PostOrderUpTo(j), children[j].PostOrder());
      }
    }

    /** The tree is this node over the disjoint subtrees of its children. */
    lemma Below()
      requires Valid()
      ensures repr == {this} + Union(children) && this !in Union(children)
    {
      assert Local();
      UnionExcludes(children, this);
    }

    /** The first node of this tree, in pre-order, of the same type as `query`. */
    function GetNode(query: Node?): (r: Node?)
      requires Valid()
      reads this`repr, repr`repr, repr`children
      ensures r == (if query == null then null else FirstOfType(PreOrder(), query.ty))
      ensures r != null ==> r in repr
      decreases repr, 1
    {
      if Equals(query) then this else GetNodeFrom(query, 0)
    }

    function GetNodeFrom(query: Node?, i: nat): (r: Node?)
      requires Valid() && i <= |children|
      reads this`repr, repr`repr, repr`children
      ensures r == (if query == null then null else FirstOfType(PreOrderFrom(i), query.ty))
      ensures r != null ==> r in repr
      decreases repr, 0, |children| - i
    {
      if i == |children| then null
      else
        ChildValid(i);
        FirstOfTypeAppend(children[i].PreOrder(), PreOrderFrom(i + 1), if query == null then ty else query.ty);
        var r := children[i].GetNode(query);
        if r != null then r else GetNodeFrom(query, i + 1)
    }

    /** The state of the node `GetNode(n)` finds, if any. */
    ghost function Lookup(n: Node): Option<NodeState>
      requires Valid()
      reads this`repr, repr`repr, repr`children, repr`state
    {
      var t := GetNode(n);
      if t == null then None else Some(t.state)
    }

    /** For each type present in this tree, the state of the first node of that type in pre-order. */
    ghost function StatesByType(): map<NodeType, NodeState>
      requires Valid()
      reads this`repr, repr`repr, repr`children, repr`state
    {
      map m | m in repr && FirstOfType(PreOrder(), m.ty) == m :: m.ty := m.state
    }

    /** Looking `n` up finds the state `StatesByType` records for its type. */
    lemma LookupByType(n: Node)
      requires Valid()
      ensures Lookup(n) == if n.ty in StatesByType() then Some(StatesByType()[n.ty]) else None
    {
      var f := GetNode(n);
      if f != null {
        assert f in repr && FirstOfType(PreOrder(), f.ty) == f;
      }
    }

    lemma LookupsByType(s: set<Node>)
      requires Valid()
      ensures forall n | n in s :: Lookup(n) == if n.ty in StatesByType() then Some(StatesByType()[n.ty]) else None
    {
      forall n | n in s
        ensures Lookup(n) == if n.ty in StatesByType() then Some(StatesByType()[n.ty]) else None
      {
        LookupByType(n);
      }
    }

    /** Every node of `s` finds a node of its own type in this tree. */
    ghost predicate Covers(s: set<Node>)
      requires Valid()
      reads this`repr, repr`repr, repr`children
    {
      forall n | n in s :: GetNode(n) != null
    }

    /** Every lookup from a node of `s` lands outside `region` or on the node itself. */
    ghost predicate Unaliased(s: set<Node>, region: set<Node>)
      requires Valid()
      reads this`repr, repr`repr, repr`children
    {
      forall n | n in s :: GetNode(n) == null || GetNode(n) !in region || GetNode(n) == n
    }

    /** No two nodes of the tree have the same type. */
    ghost predicate UniqueTypes()
      requires Valid()
      reads this`repr, repr`repr, repr`children
    {
      forall i, j | 0 <= i < j < |PreOrder()| :: PreOrder()[i].ty != PreOrder()[j].ty
    }

    /** In a tree with unique types, looking a node of the tree up in the tree itself finds that node. */
    lemma SelfLookup(n: Node)
      requires Valid() && UniqueTypes() && n in repr
      ensures GetNode(n) == n
    {
      PreOrderEnumerates();
      var s := PreOrder();
      var k :| 0 <= k < |s| && s[k] == n;
      FirstOfTypeAt(s, n.ty, k);
    }

    /**
     * Overlaying a tree with unique types onto itself with `ApplyCurrentState`
     * (which `ApplyFunction` allows, since every lookup lands on the node
     * itself) relabels every node Noop.
     */
    lemma SelfOverlayNoop(n: Node)
      requires Valid() && UniqueTypes() && n in repr
      ensures Covers({n}) && Unaliased({n}, repr)
      ensures ApplyFn.ApplyCurrentState.Label(StatesByType(), n.ty, n.state) == Noop
    {
      SelfLookup(n);
      LookupByType(n);
    }

    /** Attaches `refresher` to the first node of type `nodeType`; does nothing when there is none. */
    method SetStateRefresher(nodeType: NodeType, refresher: Refresher)
      requires Valid()
      modifies repr`refresher
      ensures forall n | n in repr ::
        n.refresher == (if n == FirstOfType(PreOrder(), nodeType) then Some(refresher) else old(n.refresher))
    {
      var probe := new Node(nodeType, Noop);
      var target := GetNode(probe);
      if target != null {
        target.refresher := Some(refresher);
      }
    }

    /** Runs the refresher, if there is one, on this node. */
    method RefreshState(obs: Observed)
      requires refresher.Some? ==> refresher.value.CanRun(obs)
      modifies this`resourceState
      ensures resourceState == Refreshed(refresher, old(resourceState), obs)
    {
      if refresher.None? {
        return;
      }
      resourceState := refresher.value.Refresh(obs);
    }

    /** Relabels this node Noop when the target already has its state. */
    method ApplyCurrentState(target: Node)
      modifies this`state
      ensures state == CurrentStateLabel(old(state), old(target.state))
    {
      if state == target.state {
        state := Noop;
      }
    }

    /** One call of the callback `fn` on this node, with the node the walk found in the target tree. */
    method Invoke(fn: ApplyFn, target: Node?)
      requires fn.Accepts(if target == null then None else Some(target.state))
      modifies this`state
      ensures state == fn.Run(ty, old(state), old(if target == null then None else Some(target.state)))
    {
      match fn
      case ApplyCurrentState =>
        ApplyCurrentState(target);
      case ApplyDesiredState(hasName) =>
        state := DesiredStateLabel(hasName, ty, state);
    }

    /** Each child's subtree extends the post-order of those before it. */
    lemma PostOrderSteps()
      requires Valid()
      ensures forall i | 0 <= i < |children| :: children[i].Valid() && PostOrderUpTo(i + 1) == PostOrderUpTo(i) + children[i].PostOrder()
    {
      forall i | 0 <= i < |children|
        ensures children[i].Valid() && PostOrderUpTo(i + 1) == PostOrderUpTo(i) + children[i].PostOrder()
      {
        ChildValid(i);
      }
    }

    /**
     * Runs `fn` on every node of this tree, children before their parent, with
     * the node of its type found in `target`. Every node ends up as `fn` makes
     * it from its own state and the state of the node it found, both as they
     * were when the walk began. `visited` is the order of the calls: the
     * tree's post-order.
     */
    method ApplyFunction(fn: ApplyFn, target: Node) returns (ghost visited: seq<Node>)
      requires Valid() && target.Valid()
      requires fn.ReadsTarget() ==> target.Covers(repr) && target.Unaliased(repr, repr)
      modifies repr`state
      ensures visited == old(PostOrder())
      ensures forall n | n in repr ::
        fn.Accepts(old(target.Lookup(n))) && n.state == fn.Run(n.ty, old(n.state), old(target.Lookup(n)))
      ensures forall n | n in repr :: n.state == fn.Label(old(target.StatesByType()), n.ty, old(n.state))
    {
      ghost var before := map n | n in repr :: n.state;
      ghost var tbefore := map t | t in target.repr :: t.state;
      ghost var seen := map n | n in repr :: target.Seen(n, before, tbefore);
      ghost var found := target.StatesByType();
      target.LookupsByType(repr);
      assert Ready(fn, target, repr, before, tbefore, seen);
      visited := ApplyFunctionPostOrder(fn, target, repr, before, tbefore, seen);
      forall n | n in repr
        ensures fn.Accepts(old(target.Lookup(n))) && n.state == fn.Run(n.ty, old(n.state), old(target.Lookup(n)))
        ensures n.state == fn.Label(found, n.ty, old(n.state))
      {
        if fn.ReadsTarget() {
          assert seen[n] == old(target.Lookup(n));
        }
        assert old(target.Lookup(n)) == if n.ty in found then Some(found[n.ty]) else None;
      }
    }

    /** What the walk sees when it looks up `n` in this (target) tree, given the states the nodes had when the walk began. */
    ghost function Seen(n: Node, before: map<Node, NodeState>, tbefore: map<Node, NodeState>): Option<NodeState>
      requires Valid()
      reads this`repr, repr`repr, repr`children
    {
      var t := GetNode(n);
      if t == null then None
      else if t == n && n in before then Some(before[n])
      else if t in tbefore then Some(tbefore[t])
      else None
    }

    /** `seen` records, for every node of `s`, what a lookup in this tree yields given the starting states. */
    ghost predicate SeenFrom(s: set<Node>, before: map<Node, NodeState>, tbefore: map<Node, NodeState>,
                             seen: map<Node, Option<NodeState>>)
      requires Valid()
      reads this`repr, repr`repr, repr`children
    {
      forall n | n in s :: n in seen && seen[n] == Seen(n, before, tbefore)
    }

    /** The structural side conditions of the walk; they mention no state. */
    ghost predicate Ready(fn: ApplyFn, target: Node, region: set<Node>, before: map<Node, NodeState>,
                          tbefore: map<Node, NodeState>, seen: map<Node, Option<NodeState>>)
      reads this`repr, repr`repr, repr`children, target`repr, target.repr`repr, target.repr`children
    {
      Valid() && target.Valid() && repr <= region &&
      (forall t | t in target.repr :: t in tbefore) &&
      target.SeenFrom(repr, before, tbefore, seen) &&
      (fn.ReadsTarget() ==> target.Unaliased(repr, region)) &&
      Callable(repr, fn, before, seen)
    }

    lemma ReadyChild(fn: ApplyFn, target: Node, region: set<Node>, before: map<Node, NodeState>,
                     tbefore: map<Node, NodeState>, seen: map<Node, Option<NodeState>>, i: nat)
      requires Ready(fn, target, region, before, tbefore, seen) && i < |children|
      ensures children[i].Ready(fn, target, region, before, tbefore, seen)
      ensures this !in children[i].repr && children[i].repr !! Union(children[..i])
      ensures Union(children[..i + 1]) == Union(children[..i]) + children[i].repr
      ensures Union(children[..i + 1]) <= repr - {this}
      ensures children[i].repr <= repr - Union(children[..i])
    {
      ChildValid(i);
      ChildrenBefore(i);
    }

    /** Looking this node up in `target` now gives what `seen` recorded, as far as `fn` can tell. */
    lemma LookupAgrees(fn: ApplyFn, target: Node, region: set<Node>, before: map<Node, NodeState>,
                       tbefore: map<Node, NodeState>, seen: map<Node, Option<NodeState>>)
      requires Ready(fn, target, region, before, tbefore, seen)
      requires this in before && state == before[this]
      requires StatesAre(target.repr - region, tbefore)
      ensures var t := target.GetNode(this);
              var looked := if t == null then None else Some(t.state);
              fn.Accepts(looked) && fn.Run(ty, state, looked) == fn.Run(ty, before[this], seen[this])
    {
      var t := target.GetNode(this);
      var looked := if t == null then None else Some(t.state);
      if fn.ReadsTarget() {
        assert looked == seen[this];
      }
    }

    /** The walk itself: the children's subtrees one after the other, then this node. */
    method ApplyFunctionPostOrder(fn: ApplyFn, target: Node, ghost region: set<Node>, ghost before: map<Node, NodeState>,
                                  ghost tbefore: map<Node, NodeState>, ghost seen: map<Node, Option<NodeState>>)
      returns (ghost visited: seq<Node>)
      requires Ready(fn, target, region, before, tbefore, seen)
      requires StatesAre(repr, before)
      requires StatesAre(target.repr - region, tbefore)
      modifies repr`state
      ensures Relabelled(repr, fn, before, seen)
      ensures StatesAre(target.repr - region, tbefore)
      ensures visited == old(PostOrder())
      decreases repr, 1
    {
      ghost var done;
      done, visited := ApplyFunctionToChildren(fn, target, region, before, tbefore, seen);
      Below();
      var t := target.GetNode(this);
      LookupAgrees(fn, target, region, before, tbefore, seen);
      visited := visited + [this];
      Invoke(fn, t);
      RelabelledUnion({this}, done, fn, before, seen);
    }

    /** The loop of the walk: the subtrees of the children one after the other. */
    method ApplyFunctionToChildren(fn: ApplyFn, target: Node, ghost region: set<Node>, ghost before: map<Node, NodeState>,
                                   ghost tbefore: map<Node, NodeState>, ghost seen: map<Node, Option<NodeState>>)
      returns (ghost done: set<Node>, ghost visited: seq<Node>)
      requires Ready(fn, target, region, before, tbefore, seen)
      requires StatesAre(repr, before)
      requires StatesAre(target.repr - region, tbefore)
      modifies repr`state
      ensures Ready(fn, target, region, before, tbefore, seen)
      ensures done == Union(children) && visited == old(PostOrderUpTo(|children|))
      ensures Relabelled(done, fn, before, seen)
      ensures StatesAre(repr - done, before)
      ensures StatesAre(target.repr - region, tbefore)
      decreases repr, 0, 1
    {
      done := {};
      visited := [];
      PostOrderSteps();
      var i := 0;
      while i < |children|
        invariant 0 <= i <= |children|
        invariant Ready(fn, target, region, before, tbefore, seen)
        invariant done == Union(children[..i])
        invariant visited == old(PostOrderUpTo(i))
        invariant Relabelled(done, fn, before, seen)
        invariant StatesAre(repr - done, before)
        invariant StatesAre(target.repr - region, tbefore)
      {
        OrderKept(i);
        done, visited := ApplyFunctionToChild(fn, target, region, before, tbefore, seen, i, done, visited);
        i := i + 1;
      }
      assert children[..i] == children;
    }

    /** One step of the walk's loop: the subtree of the `i`-th child. */
    method ApplyFunctionToChild(fn: ApplyFn, target: Node, ghost region: set<Node>, ghost before: map<Node, NodeState>,
                                ghost tbefore: map<Node, NodeState>, ghost seen: map<Node, Option<NodeState>>,
                                i: nat, ghost done: set<Node>, ghost visited: seq<Node>)
      returns (ghost done': set<Node>, ghost visited': seq<Node>)
      requires Ready(fn, target, region, before, tbefore, seen) && i < |children| && children[i].Valid()
      requires done == Union(children[..i])
      requires Relabelled(done, fn, before, seen)
      requires StatesAre(repr - done, before)
      requires StatesAre(target.repr - region, tbefore)
      modifies repr`state
      ensures Ready(fn, target, region, before, tbefore, seen)
      ensures done' == Union(children[..i + 1])
      ensures visited' == visited + old(children[i].PostOrder())
      ensures Relabelled(done', fn, before, seen)
      ensures StatesAre(repr - done', before)
      ensures StatesAre(target.repr - region, tbefore)
      decreases repr, 0, 0
    {
      ReadyChild(fn, target, region, before, tbefore, seen, i);
      StatesAreSubset(children[i].repr, repr - done, before);
      ghost var sub := children[i].ApplyFunctionPostOrder(fn, target, region, before, tbefore, seen);
      ShapeKept(Walk(fn, target, region, before, tbefore, seen));
      RelabelledUnion(done, children[i].repr, fn, before, seen);
      done' := done + children[i].repr;
      visited' := visited + sub;
    }

    /** Changing only states leaves the post-order of the `i`-th child's subtree as it was. */
    twostate lemma OrderKept(i: nat)
      requires old(Valid()) && i < old(|children|) && old(children[i].Valid())
      requires forall n: Node | n in old(repr) :: n.repr == old(n.repr) && n.children == old(n.children)
      ensures Valid() && children[i].Valid() && children[i].PostOrder() == old(children[i].PostOrder())
    {
      assert old(Local());
    }

    /** A walk that changes only states leaves the shape of both trees, and all that depends on it alone, as it was. */
    twostate lemma ShapeKept(w: Walk)
      requires old(Valid()) && old(w.target.Valid())
      requires forall n: Node | n in old(repr) || n in old(w.target.repr) :: n.repr == old(n.repr) && n.children == old(n.children)
      ensures old(Ready(w.fn, w.target, w.region, w.before, w.tbefore, w.seen)) ==> Ready(w.fn, w.target, w.region, w.before, w.tbefore, w.seen)
      ensures forall k | 0 <= k <= |children| :: Union(children[..k]) == old(Union(children[..k]))
    {
      assert old(Local());
    }

    /**
     * Marks every node Present when `target` has no node of its type and
     * Noop otherwise, children before their parent.
     */
    method Apply(target: Node)
      requires Valid() && target.Valid()
      modifies repr`state
      ensures Marked(repr, target)
      decreases repr, 1
    {
      ghost var done: set<Node> := {};
      var i := 0;
      while i < |children|
        invariant 0 <= i <= |children|
        invariant Valid() && target.Valid()
        invariant done == Union(children[..i])
        invariant Marked(done, target)
      {
        done := ApplyToChild(target, i, done);
        i := i + 1;
      }
      assert children[..i] == children;
      Below();
      if target.GetNode(this) == null {
        state := Present;
      } else {
        state := Noop;
      }
      MarkedUnion({this}, done, target);
    }

    /** One step of `Apply`'s loop: the subtree of the `i`-th child. */
    method ApplyToChild(target: Node, i: nat, ghost done: set<Node>) returns (ghost done': set<Node>)
      requires Valid() && target.Valid() && i < |children|
      requires done == Union(children[..i]) && Marked(done, target)
      modifies repr`state
      ensures Valid() && target.Valid()
      ensures done' == Union(children[..i + 1]) && Marked(done', target)
      decreases repr, 0
    {
      ChildValid(i);
      ChildrenBefore(i);
      children[i].Apply(target);
      TreesKept(target);
      MarkedUnion(done, children[i].repr, target);
      done' := done + children[i].repr;
    }

    /** Changing only states leaves both trees valid and the subtrees of the children as they were. */
    twostate lemma TreesKept(target: Node)
      requires old(Valid()) && old(target.Valid())
      requires forall n: Node | n in old(repr) || n in old(target.repr) :: n.repr == old(n.repr) && n.children == old(n.children)
      ensures Valid() && target.Valid()
      ensures forall k | 0 <= k <= |children| :: Union(children[..k]) == old(Union(children[..k]))
    {
      assert old(Local());
    }
  }
}
