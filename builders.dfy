/**
 * Building the two resource trees `apply cluster` compares: the current
 * tree, from the services found to exist already, and the desired tree,
 * from the cluster declaration; then copying the declaration's metadata
 * onto the desired tree.
 *
 * The program holds two copies of these builders. They build the same
 * trees; they differ only in whether `ApplyDesiredStateMetadata` demands a
 * GitHub node, which `githubRequired` selects here.
 */
module Builders {
  import opened Api
  import opened Resources
  import opened ResourceTree

  /** Which services were found to exist already, one flag per service directory probed. */
  datatype ExistingServices = ExistingServices(
    hasAlbIngressController: bool, hasCluster: bool, hasExternalDns: bool, hasExternalSecrets: bool,
    hasGithubSetup: bool, hasIdentityManager: bool, hasPrimaryHostedZone: bool, hasVpc: bool)

  /** The parts of the cluster declaration the builders read. */
  datatype DnsZone = DnsZone(parentDomain: string)
  datatype VpcDeclaration = VpcDeclaration(cidr: string, highAvailability: bool)
  datatype Integrations = Integrations(albIngressController: bool, externalDns: bool, externalSecrets: bool)
  datatype ClusterDeclaration = ClusterDeclaration(dnsZones: seq<DnsZone>, vpc: VpcDeclaration,
                                                   githubOrganisation: string, integrations: Integrations)

  function StateOf(present: bool): NodeState {
    if present then Present else Absent
  }

  // ---------------------------------------------------------------------
  // The shape of a tree
  // ---------------------------------------------------------------------

  /** A tree of types and states: what a built resource tree is compared with. */
  datatype Shape = Shape(ty: NodeType, state: NodeState, children: seq<Shape>)

  function Leaf(ty: NodeType, state: NodeState): Shape {
    Shape(ty, state, [])
  }

  /**
   * The current tree: a Present root over the primary hosted zone, GitHub
   * and the VPC; the cluster below the VPC; the three integrations below
   * the cluster. Each state is Present exactly when the service was found.
   */
  function CurrentShape(o: ExistingServices): Shape {
    Shape(Group, Present, [
      Leaf(Zone, StateOf(o.hasPrimaryHostedZone)),
      Leaf(Github, Absent),
      VpcShape(o.hasVpc, o.hasCluster, o.hasExternalSecrets, o.hasAlbIngressController, o.hasExternalDns)])
  }

  /**
   * The VPC over the cluster over its three integrations, external secrets,
   * the ALB ingress controller and external DNS, each Present exactly when
   * its flag is set: the branch both trees end with.
   */
  function VpcShape(vpc: bool, cluster: bool, secrets: bool, alb: bool, dns: bool): Shape {
    Shape(VPC, StateOf(vpc), [ClusterShape(cluster, secrets, alb, dns)])
  }

  function ClusterShape(cluster: bool, secrets: bool, alb: bool, dns: bool): Shape {
    Shape(Cluster, StateOf(cluster), [
      Leaf(ExternalSecrets, StateOf(secrets)), Leaf(AlbIngress, StateOf(alb)), Leaf(ExternalDns, StateOf(dns))])
  }

  /** `n` Present zones. */
  function Zones(n: nat): (r: seq<Shape>)
    ensures |r| == n && forall k | 0 <= k < n :: r[k] == Leaf(Zone, Present)
  {
    if n == 0 then [] else Zones(n - 1) + [Leaf(Zone, Present)]
  }

  /**
   * The desired tree: a Present root over one Present zone per declared DNS
   * zone, GitHub and the VPC, all Present; the cluster, Present, below the
   * VPC; below the cluster the three integrations, each Present exactly
   * when the declaration enables it.
   */
  function DesiredShape(c: ClusterDeclaration): Shape {
    var i := c.integrations;
    Shape(Group, Present, Zones(|c.dnsZones|) + [
      Leaf(Github, Present),
      VpcShape(true, true, i.externalSecrets, i.albIngressController, i.externalDns)])
  }

  /** The type and state of every node of a shape, parent before children, children in order. */
  function Outline(s: Shape): seq<(NodeType, NodeState)>
    decreases s
  {
    [(s.ty, s.state)] + Outlines(s.children)
  }

  function Outlines(ss: seq<Shape>): seq<(NodeType, NodeState)>
    decreases ss
  {
    if ss == [] then [] else Outlines(ss[..|ss| - 1]) + Outline(ss[|ss| - 1])
  }

  lemma {:induction false} OutlinesAppend(a: seq<Shape>, b: seq<Shape>)
    ensures Outlines(a + b) == Outlines(a) + Outlines(b)
    decreases |b|
  {
    if b == [] {
      assert a + b == a;
    } else {
      var b' := b[..|b| - 1];
      assert (a + b)[..|a + b| - 1] == a + b';
      OutlinesAppend(a, b');
    }
  }

  /** `k` entries for Present zones. */
  function ZoneEntries(k: nat): (r: seq<(NodeType, NodeState)>)
    ensures |r| == k && forall j | 0 <= j < k :: r[j] == (Zone, Present)
  {
    seq(k, _ => (Zone, Present))
  }

  lemma {:induction false} ZonesOutline(k: nat)
    ensures Outlines(Zones(k)) == ZoneEntries(k)
  {
    if k > 0 {
      ZonesOutline(k - 1);
      assert Zones(k)[..k - 1] == Zones(k - 1);
    }
  }

  lemma Outlines1(a: Shape)
    ensures Outlines([a]) == Outline(a)
  {
    assert [a][..0] == [];
  }

  lemma Outlines2(a: Shape, b: Shape)
    ensures Outlines([a, b]) == Outline(a) + Outline(b)
  {
    OutlinesAppend([a], [b]);
    assert [a] + [b] == [a, b];
    Outlines1(a);
    Outlines1(b);
  }

  lemma Outlines3(a: Shape, b: Shape, c: Shape)
    ensures Outlines([a, b, c]) == Outline(a) + Outline(b) + Outline(c)
  {
    OutlinesAppend([a, b], [c]);
    assert [a, b] + [c] == [a, b, c];
    Outlines2(a, b);
    Outlines1(c);
  }

  /** The cluster with its three integrations, in pre-order. */
  lemma ClusterOutline(cluster: NodeState, secrets: NodeState, alb: NodeState, dns: NodeState)
    ensures Outline(Shape(Cluster, cluster, [Leaf(ExternalSecrets, secrets), Leaf(AlbIngress, alb), Leaf(ExternalDns, dns)]))
         == [(Cluster, cluster), (ExternalSecrets, secrets), (AlbIngress, alb), (ExternalDns, dns)]
  {
    Outlines3(Leaf(ExternalSecrets, secrets), Leaf(AlbIngress, alb), Leaf(ExternalDns, dns));
  }

  /** The current tree in pre-order: eight nodes of eight different types, GitHub Absent. */
  lemma CurrentOutline(o: ExistingServices)
    ensures Outline(CurrentShape(o)) == [
      (Group, Present), (Zone, StateOf(o.hasPrimaryHostedZone)), (Github, Absent), (VPC, StateOf(o.hasVpc)),
      (Cluster, StateOf(o.hasCluster)), (ExternalSecrets, StateOf(o.hasExternalSecrets)),
      (AlbIngress, StateOf(o.hasAlbIngressController)), (ExternalDns, StateOf(o.hasExternalDns))]
  {
    var top := CurrentShape(o).children;
    ClusterOutline(StateOf(o.hasCluster), StateOf(o.hasExternalSecrets), StateOf(o.hasAlbIngressController),
                   StateOf(o.hasExternalDns));
    Outlines1(top[2].children[0]);
    Outlines3(top[0], top[1], top[2]);
  }

  /** The desired tree in pre-order: the root, one entry per DNS zone, then GitHub, the VPC, the cluster and the integrations. */
  lemma DesiredOutline(c: ClusterDeclaration)
    ensures Outline(DesiredShape(c)) == [(Group, Present)] + ZoneEntries(|c.dnsZones|) + [
      (Github, Present), (VPC, Present), (Cluster, Present),
      (ExternalSecrets, StateOf(c.integrations.externalSecrets)),
      (AlbIngress, StateOf(c.integrations.albIngressController)),
      (ExternalDns, StateOf(c.integrations.externalDns))]
  {
    var s := DesiredShape(c);
    var zones := Zones(|c.dnsZones|);
    var rest := s.children[|zones|..];
    assert s.children == zones + rest;
    OutlinesAppend(zones, rest);
    ZonesOutline(|c.dnsZones|);
    ClusterOutline(Present, StateOf(c.integrations.externalSecrets), StateOf(c.integrations.albIngressController),
                   StateOf(c.integrations.externalDns));
    Outlines1(rest[1].children[0]);
    Outlines2(rest[0], rest[1]);
  }

  // ---------------------------------------------------------------------
  // The shape of a node's subtree
  // ---------------------------------------------------------------------

  /** The types and states of the subtree rooted at `n`. */
  ghost function ShapeOf(n: Node): (s: Shape)
    requires n.Valid()
    reads n`repr, n.repr`repr, n.repr`children, n.repr`state
    ensures s.ty == n.ty && s.state == n.state && |s.children| == |n.children|
    decreases n.repr, 1
  {
    Shape(n.ty, n.state, ShapesOf(n, |n.children|))
  }

  /** The shapes of the subtrees of `n`'s first `i` children. */
  ghost function ShapesOf(n: Node, i: nat): (ss: seq<Shape>)
    requires n.Valid() && i <= |n.children|
    reads n`repr, n.repr`repr, n.repr`children, n.repr`state
    ensures |ss| == i
    decreases n.repr, 0, i
  {
    if i == 0 then []
    else
      n.ChildValid(i - 1);
      ShapesOf(n, i - 1) + [ShapeOf(n.children[i - 1])]
  }

  lemma {:induction false} ShapesOfAt(n: Node, i: nat, k: nat)
    requires n.Valid() && k < i <= |n.children|
    ensures n.children[k].Valid() && ShapesOf(n, i)[k] == ShapeOf(n.children[k])
    decreases i
  {
    n.ChildValid(k);
    if k < i - 1 {
      ShapesOfAt(n, i - 1, k);
    }
  }

  /** A node of the given type and state over subtrees of the given shapes has that shape. */
  lemma ShapeFrom(n: Node, s: Shape)
    requires n.Valid() && n.ty == s.ty && n.state == s.state && |n.children| == |s.children|
    requires forall k | 0 <= k < |n.children| :: n.children[k].Valid() && ShapeOf(n.children[k]) == s.children[k]
    ensures ShapeOf(n) == s
  {
    forall k | 0 <= k < |n.children|
      ensures ShapeOf(n).children[k] == s.children[k]
    {
      ShapesOfAt(n, |n.children|, k);
    }
  }

  /** The outline `o` lists the types and states of the nodes `s`, one for one. */
  ghost predicate Matches(o: seq<(NodeType, NodeState)>, s: seq<Node>)
    reads s
  {
    |o| == |s| && forall k | 0 <= k < |s| :: o[k] == (s[k].ty, s[k].state)
  }

  lemma MatchesAppend(o1: seq<(NodeType, NodeState)>, s1: seq<Node>, o2: seq<(NodeType, NodeState)>, s2: seq<Node>)
    requires Matches(o1, s1) && Matches(o2, s2)
    ensures Matches(o1 + o2, s1 + s2)
  {
    forall k | 0 <= k < |s1 + s2|
      ensures (o1 + o2)[k] == ((s1 + s2)[k].ty, (s1 + s2)[k].state)
    {
      if k >= |s1| {
        assert (o1 + o2)[k] == o2[k - |s1|] && (s1 + s2)[k] == s2[k - |s1|];
      }
    }
  }

  /** The outline of a node's shape lists the types and states of its subtree in pre-order. */
  lemma {:induction false} OutlineOf(n: Node)
    requires n.Valid()
    ensures Matches(Outline(ShapeOf(n)), n.PreOrder())
    decreases n.repr, 1
  {
    n.PreOrderSplit(|n.children|);
    OutlinesOf(n, |n.children|);
    assert n.PreOrder() == [n] + n.PreOrderUpTo(|n.children|);
    MatchesAppend([(n.ty, n.state)], [n], Outlines(ShapesOf(n, |n.children|)), n.PreOrderUpTo(|n.children|));
  }

  lemma {:induction false} OutlinesOf(n: Node, i: nat)
    requires n.Valid() && i <= |n.children|
    ensures Matches(Outlines(ShapesOf(n, i)), n.PreOrderUpTo(i))
    decreases n.repr, 0, i
  {
    if i > 0 {
      var j := i - 1;
      n.ChildValid(j);
      var ss := ShapesOf(n, i);
      assert ss[..|ss| - 1] == ShapesOf(n, j);
      OutlinesOf(n, j);
      OutlineOf(n.children[j]);
      MatchesAppend(Outlines(ShapesOf(n, j)), n.PreOrderUpTo(j), Outline(ShapeOf(n.children[j])), n.children[j].PreOrder());
    }
  }

  /** The types of the nodes of the tree rooted at `n`. */
  ghost function TypesIn(n: Node): set<NodeType>
    reads n`repr
  {
    set m | m in n.repr :: m.ty
  }

  /** A type occurs in a tree exactly when a lookup by that type finds a node. */
  lemma FoundIff(n: Node, t: NodeType)
    requires n.Valid()
    ensures FirstOfType(n.PreOrder(), t) != null <==> t in TypesIn(n)
  {
    n.PreOrderEnumerates();
    if t in TypesIn(n) {
      var m :| m in n.repr && m.ty == t;
      assert m in n.PreOrder();
    }
  }

  /** The types an outline lists. */
  function OutlineTypes(o: seq<(NodeType, NodeState)>): set<NodeType> {
    set k | 0 <= k < |o| :: o[k].0
  }

  lemma OutlineTypesAppend(a: seq<(NodeType, NodeState)>, b: seq<(NodeType, NodeState)>)
    ensures OutlineTypes(a + b) == OutlineTypes(a) + OutlineTypes(b)
  {
    forall t | t in OutlineTypes(a + b)
      ensures t in OutlineTypes(a) + OutlineTypes(b)
    {
      var k :| 0 <= k < |a + b| && (a + b)[k].0 == t;
      if k >= |a| {
        assert (a + b)[k] == b[k - |a|];
      }
    }
    forall t | t in OutlineTypes(b)
      ensures t in OutlineTypes(a + b)
    {
      var k :| 0 <= k < |b| && b[k].0 == t;
      assert (a + b)[|a| + k] == b[k];
    }
    forall t | t in OutlineTypes(a)
      ensures t in OutlineTypes(a + b)
    {
      var k :| 0 <= k < |a| && a[k].0 == t;
      assert (a + b)[k] == a[k];
    }
  }

  /** The types occurring in a tree are those the outline of its shape lists. */
  lemma TypesInOutline(n: Node)
    requires n.Valid()
    ensures TypesIn(n) == OutlineTypes(Outline(ShapeOf(n)))
  {
    n.PreOrderEnumerates();
    OutlineOf(n);
    var s := n.PreOrder();
    var o := Outline(ShapeOf(n));
    forall t | t in TypesIn(n)
      ensures t in OutlineTypes(o)
    {
      var m :| m in n.repr && m.ty == t;
      var k :| 0 <= k < |s| && s[k] == m;
      assert o[k].0 == t;
    }
    forall t | t in OutlineTypes(o)
      ensures t in TypesIn(n)
    {
      var k :| 0 <= k < |o| && o[k].0 == t;
      InTree(n, s[k]);
    }
  }

  /** Every node of a tree has the type and state of some entry of the outline of its shape. */
  lemma EntryOf(n: Node, m: Node) returns (k: nat)
    requires n.Valid() && m in n.repr
    ensures k < |Outline(ShapeOf(n))| && Outline(ShapeOf(n))[k] == (m.ty, m.state)
  {
    n.PreOrderEnumerates();
    OutlineOf(n);
    var s := n.PreOrder();
    k :| 0 <= k < |s| && s[k] == m;
  }

  lemma InTree(root: Node, x: Node)
    requires root.Valid() && x in root.PreOrder()
    ensures x in root.repr && x.ty in TypesIn(root)
  {
    root.PreOrderEnumerates();
  }

  // ---------------------------------------------------------------------
  // Building the trees
  // ---------------------------------------------------------------------

  /** `n` is a node just made: of type `ty` and state `state`, bare, without children, alone in its subtree. */
  ghost predicate FreshLeaf(n: Node, ty: NodeType, state: NodeState)
    reads n`repr, n`children, n`state, n`metadata, n`refresher, n`resourceState
  {
    n.ty == ty && n.state == state && n.metadata == NoMetadata && n.refresher.None? && n.resourceState == NoResourceState &&
    n.repr == {n} && n.children == []
  }

  /** No node of `s` has metadata, a refresher or a resource state yet. */
  ghost predicate Pristine(s: set<Node>)
    reads s`metadata, s`refresher, s`resourceState
  {
    forall m | m in s :: m.metadata == NoMetadata && m.refresher.None? && m.resourceState == NoResourceState
  }

  /**
   * A new node of type `nodeType`, Present when `present` and Absent
   * otherwise, without children; appended after the existing children of
   * `parent` when there is one.
   */
  method CreateNode(parent: Node?, nodeType: NodeType, present: bool) returns (child: Node)
    modifies ({parent} - {null})`children
    ensures fresh(child) && child.ty == nodeType && child.state == StateOf(present)
    ensures child.repr == {child} && child.children == [] && child.metadata == NoMetadata
    ensures child.refresher.None? && child.resourceState == NoResourceState
    ensures parent != null ==> parent.children == old(parent.children) + [child]
  {
    var state;
    if present {
      state := Present;
    } else {
      state := Absent;
    }
    child := new Node(nodeType, state);
    if parent != null {
      parent.children := parent.children + [child];
    }
  }

  /** A node just made is a valid tree of one node. */
  lemma LeafTree(n: Node, ty: NodeType, state: NodeState)
    requires FreshLeaf(n, ty, state)
    ensures n.Valid() && ShapeOf(n) == Leaf(ty, state)
  {
    assert n.Local();
  }

  /** A node over valid subtrees of the given shapes, disjoint and without it, is a valid tree of shape `s`. */
  lemma JoinShaped(n: Node, s: Shape)
    requires n.ty == s.ty && n.state == s.state && |n.children| == |s.children|
    requires forall k | 0 <= k < |n.children| :: n.children[k].Valid() && ShapeOf(n.children[k]) == s.children[k]
    requires forall k | 0 <= k < |n.children| :: n !in n.children[k].repr
    requires forall j, k | 0 <= j < k < |n.children| :: n.children[j].repr !! n.children[k].repr
    requires n.repr == {n} + Union(n.children)
    ensures n.Valid() && ShapeOf(n) == s
  {
    n.Join();
    ShapeFrom(n, s);
  }

  lemma Union3(a: Node, b: Node, c: Node)
    ensures Union([a, b, c]) == a.repr + b.repr + c.repr
  {
    UnionAppend([a, b], c);
    UnionAppend([a], b);
    UnionAppend([], a);
    assert [a, b] + [c] == [a, b, c];
  }

  /** A cluster node over three nodes just made, wired as `CreateClusterBranch` wires them, is a valid tree. */
  lemma ClusterTree(cluster: Node, secrets: Node, alb: Node, dns: Node, c: bool, es: bool, a: bool, d: bool)
    requires cluster != secrets && cluster != alb && cluster != dns && secrets != alb && secrets != dns && alb != dns
    requires cluster.ty == Cluster && cluster.state == StateOf(c)
    requires secrets.ty == ExternalSecrets && secrets.state == StateOf(es)
    requires alb.ty == AlbIngress && alb.state == StateOf(a)
    requires dns.ty == ExternalDns && dns.state == StateOf(d)
    requires cluster.metadata == NoMetadata && cluster.refresher.None? && cluster.resourceState == NoResourceState
    requires secrets.metadata == NoMetadata && secrets.refresher.None? && secrets.resourceState == NoResourceState
    requires alb.metadata == NoMetadata && alb.refresher.None? && alb.resourceState == NoResourceState
    requires dns.metadata == NoMetadata && dns.refresher.None? && dns.resourceState == NoResourceState
    requires secrets.children == [] && secrets.repr == {secrets} && alb.children == [] && alb.repr == {alb}
    requires dns.children == [] && dns.repr == {dns}
    requires cluster.children == [secrets, alb, dns] && cluster.repr == {cluster, secrets, alb, dns}
    ensures cluster.Valid() && ShapeOf(cluster) == ClusterShape(c, es, a, d) && Pristine(cluster.repr)
  {
    LeafTree(secrets, ExternalSecrets, StateOf(es));
    LeafTree(alb, AlbIngress, StateOf(a));
    LeafTree(dns, ExternalDns, StateOf(d));
    Union3(secrets, alb, dns);
    JoinShaped(cluster, ClusterShape(c, es, a, d));
  }

  /** A VPC node over a cluster's tree, as `CreateVpcBranch` wires them, is a valid tree. */
  lemma VpcTree(vpc: Node, cluster: Node, s: Shape)
    requires |s.children| == 1 && cluster.Valid() && ShapeOf(cluster) == s.children[0] && Pristine(cluster.repr)
    requires vpc !in cluster.repr && vpc.children == [cluster] && vpc.repr == {vpc} + cluster.repr
    requires vpc.ty == s.ty && vpc.state == s.state
    requires vpc.metadata == NoMetadata && vpc.refresher.None? && vpc.resourceState == NoResourceState
    ensures vpc.Valid() && ShapeOf(vpc) == s && Pristine(vpc.repr)
  {
    UnionAppend([], cluster);
    assert [] + [cluster] == [cluster];
    JoinShaped(vpc, s);
  }

  /**
   * Appends to `vpc` a new cluster node and, below it, the three new
   * integration nodes in order, each Present exactly when its flag is set.
   */
  method CreateClusterBranch(vpc: Node, clusterPresent: bool, secretsPresent: bool, albPresent: bool, dnsPresent: bool)
    returns (cluster: Node)
    modifies vpc`children
    ensures vpc.children == old(vpc.children) + [cluster] && fresh(cluster.repr)
    ensures cluster.Valid() && Pristine(cluster.repr)
    ensures ShapeOf(cluster) == ClusterShape(clusterPresent, secretsPresent, albPresent, dnsPresent)
  {
    cluster := CreateNode(vpc, Cluster, clusterPresent);
    var secrets := CreateNode(cluster, ExternalSecrets, secretsPresent);
    var alb := CreateNode(cluster, AlbIngress, albPresent);
    var dns := CreateNode(cluster, ExternalDns, dnsPresent);
    ghost var made := {cluster, secrets, alb, dns};
    assert fresh(made);
    cluster.repr := made;
    ClusterTree(cluster, secrets, alb, dns, clusterPresent, secretsPresent, albPresent, dnsPresent);
  }

  /**
   * Appends to `root` a new VPC node, a new cluster node below it and the
   * three new integration nodes below that, in that order, each Present
   * exactly when its flag is set.
   */
  method CreateVpcBranch(root: Node, vpcPresent: bool, clusterPresent: bool, secretsPresent: bool, albPresent: bool,
                         dnsPresent: bool) returns (vpc: Node)
    modifies root`children, root`repr
    ensures root.children == old(root.children) + [vpc] && root.repr == old(root.repr) + vpc.repr
    ensures fresh(vpc.repr) && vpc.Valid() && Pristine(vpc.repr)
    ensures ShapeOf(vpc) == VpcShape(vpcPresent, clusterPresent, secretsPresent, albPresent, dnsPresent)
  {
    vpc := CreateNode(root, VPC, vpcPresent);
    var cluster := CreateClusterBranch(vpc, clusterPresent, secretsPresent, albPresent, dnsPresent);
    root.repr := root.repr + ({vpc} + cluster.repr);
    vpc.repr := {vpc} + cluster.repr;
    VpcTree(vpc, cluster, VpcShape(vpcPresent, clusterPresent, secretsPresent, albPresent, dnsPresent));
  }

  /** The union of the subtrees of nodes just made is the set of those nodes. */
  lemma {:induction false} UnionOfLeaves(cs: seq<Node>)
    requires forall k | 0 <= k < |cs| :: cs[k].repr == {cs[k]}
    ensures Union(cs) == set x | x in cs
  {
    if cs != [] {
      var init := cs[..|cs| - 1];
      UnionOfLeaves(init);
      assert cs == init + [cs[|cs| - 1]];
      assert (set x | x in cs) == (set x | x in init) + {cs[|cs| - 1]};
    }
  }

  /**
   * A root over nodes just made and then the VPC's tree, as both builders
   * wire it, forms a valid tree of shape `s`.
   */
  lemma RootTree(root: Node, leaves: seq<Node>, vpc: Node, s: Shape)
    requires |s.children| == |leaves| + 1
    requires forall k | 0 <= k < |leaves| ::
      s.children[k].children == [] && leaves[k].ty == s.children[k].ty && leaves[k].state == s.children[k].state &&
      leaves[k].children == [] && leaves[k].repr == {leaves[k]} &&
      leaves[k].metadata == NoMetadata && leaves[k].refresher.None? && leaves[k].resourceState == NoResourceState
    requires Distinct(leaves) && root !in leaves
    requires vpc.Valid() && ShapeOf(vpc) == s.children[|leaves|] && Pristine(vpc.repr)
    requires root !in vpc.repr && forall k | 0 <= k < |leaves| :: leaves[k] !in vpc.repr
    requires root.ty == s.ty && root.state == s.state && root.children == leaves + [vpc]
    requires root.metadata == NoMetadata && root.refresher.None? && root.resourceState == NoResourceState
    requires root.repr == {root} + (set x | x in leaves) + vpc.repr
    ensures root.Valid() && ShapeOf(root) == s && Pristine(root.repr)
  {
    var n := |leaves|;
    var cs := root.children;
    assert cs[n] == vpc;
    forall k | 0 <= k < |cs|
      ensures cs[k].Valid() && ShapeOf(cs[k]) == s.children[k] && root !in cs[k].repr
    {
      if k < n {
        assert cs[k] == leaves[k];
        assert FreshLeaf(leaves[k], s.children[k].ty, s.children[k].state);
        LeafTree(leaves[k], s.children[k].ty, s.children[k].state);
      }
    }
    forall j, k | 0 <= j < k < |cs|
      ensures cs[j].repr !! cs[k].repr
    {
      assert cs[j] == leaves[j];
      if k < n {
        assert cs[k] == leaves[k];
      }
    }
    UnionOfLeaves(leaves);
    UnionAppend(leaves, vpc);
    assert cs == leaves + [vpc];
    JoinShaped(root, s);
  }

  /**
   * A new Present root over a new zone, Present exactly when the primary
   * hosted zone exists, and a new Absent GitHub node: the part of the
   * current tree above the VPC.
   */
  method CreateCurrentTop(hasZone: bool) returns (root: Node, ghost leaves: seq<Node>)
    ensures fresh(root.repr) && root.ty == Group && root.state == Present
    ensures root.metadata == NoMetadata && root.refresher.None? && root.resourceState == NoResourceState
    ensures |leaves| == 2 && root.children == leaves && Distinct(leaves) && root !in leaves
    ensures forall k | 0 <= k < 2 ::
      leaves[k].ty == (if k == 0 then Zone else Github) && leaves[k].state == (if k == 0 then StateOf(hasZone) else Absent) &&
      leaves[k].children == [] && leaves[k].repr == {leaves[k]} &&
      leaves[k].metadata == NoMetadata && leaves[k].refresher.None? && leaves[k].resourceState == NoResourceState
    ensures root.repr == {root} + (set x | x in leaves)
  {
    root := CreateNode(null, Group, true);
    var zone := CreateNode(root, Zone, hasZone);
    var github := CreateNode(root, Github, false);
    leaves := [zone, github];
    assert (set x | x in leaves) == {zone, github};
    ghost var top := {root, zone, github};
    assert fresh(top);
    root.repr := top;
  }

  /** The current tree, built from the services found to exist already. */
  method CreateCurrentStateGraph(o: ExistingServices) returns (root: Node)
    ensures fresh(root.repr) && root.Valid() && Pristine(root.repr)
    ensures ShapeOf(root) == CurrentShape(o)
  {
    ghost var leaves;
    root, leaves := CreateCurrentTop(o.hasPrimaryHostedZone);
    var vpc := CreateVpcBranch(root, o.hasVpc, o.hasCluster, o.hasExternalSecrets, o.hasAlbIngressController,
                               o.hasExternalDns);
    RootTree(root, leaves, vpc, CurrentShape(o));
  }

  /** Appends `count` new Present zones to the children of `root`, which has none yet. */
  method CreateZoneNodes(root: Node, count: nat)
    requires root.children == []
    modifies root`children
    ensures |root.children| == count && Distinct(root.children) && root !in root.children
    ensures forall z | z in root.children ::
      fresh(z) && z.ty == Zone && z.state == Present && z.children == [] && z.repr == {z} &&
      z.metadata == NoMetadata && z.refresher.None? && z.resourceState == NoResourceState
  {
    for i := 0 to count
      invariant |root.children| == i && Distinct(root.children) && root !in root.children
      invariant forall z | z in root.children ::
        fresh(z) && z.ty == Zone && z.state == Present && z.children == [] && z.repr == {z} &&
        z.metadata == NoMetadata && z.refresher.None? && z.resourceState == NoResourceState
    {
      ghost var before := root.children;
      var zone := CreateNode(root, Zone, true);
      DistinctAppend(before, [zone]);
    }
  }

  /**
   * A new Present root over `count` new Present zones and then a new
   * Present GitHub node: the part of the desired tree above the VPC.
   */
  method CreateDesiredTop(count: nat) returns (root: Node, ghost leaves: seq<Node>)
    ensures fresh(root.repr) && root.ty == Group && root.state == Present
    ensures root.metadata == NoMetadata && root.refresher.None? && root.resourceState == NoResourceState
    ensures |leaves| == count + 1 && root.children == leaves && Distinct(leaves) && root !in leaves
    ensures forall k | 0 <= k < |leaves| ::
      leaves[k].ty == (if k < count then Zone else Github) && leaves[k].state == Present &&
      leaves[k].children == [] && leaves[k].repr == {leaves[k]} &&
      leaves[k].metadata == NoMetadata && leaves[k].refresher.None? && leaves[k].resourceState == NoResourceState
    ensures root.repr == {root} + (set x | x in leaves)
  {
    root := CreateNode(null, Group, true);
    if count > 0 {
      CreateZoneNodes(root, count);
    }
    ghost var zones := root.children;
    var github := CreateNode(root, Github, true);
    leaves := zones + [github];
    DistinctAppend(zones, [github]);
    ghost var top := {root} + (set x | x in leaves);
    assert fresh(top);
    root.repr := top;
  }

  /** The desired tree, built from the cluster declaration. */
  method CreateDesiredStateGraph(c: ClusterDeclaration) returns (root: Node)
    ensures fresh(root.repr) && root.Valid() && Pristine(root.repr)
    ensures ShapeOf(root) == DesiredShape(c)
  {
    ghost var leaves;
    root, leaves := CreateDesiredTop(|c.dnsZones|);
    var i := c.integrations;
    var vpc := CreateVpcBranch(root, true, true, i.externalSecrets, i.albIngressController, i.externalDns);
    RootTree(root, leaves, vpc, DesiredShape(c));
  }

  // ---------------------------------------------------------------------
  // What the built trees hold
  // ---------------------------------------------------------------------

  /** The types of the current tree: one node of each. */
  const CurrentTypes: set<NodeType> := {Group, Zone, Github, VPC, Cluster, ExternalSecrets, AlbIngress, ExternalDns}

  /** The types of the desired tree: all of the current tree's, but the zone only when a DNS zone is declared. */
  function DesiredTypes(c: ClusterDeclaration): set<NodeType> {
    {Group, Github, VPC, Cluster, ExternalSecrets, AlbIngress, ExternalDns} + if |c.dnsZones| > 0 then {Zone} else {}
  }

  /** The current tree has one node of each of its eight types, and no other. */
  lemma {:induction false} CurrentTreeTypes(root: Node, o: ExistingServices)
    requires root.Valid() && ShapeOf(root) == CurrentShape(o)
    ensures TypesIn(root) == CurrentTypes && root.UniqueTypes()
  {
    TypesInOutline(root);
    OutlineOf(root);
    CurrentOutline(o);
    var ol := Outline(CurrentShape(o));
    assert ol[0].0 == Group && ol[1].0 == Zone && ol[2].0 == Github && ol[3].0 == VPC;
    assert ol[4].0 == Cluster && ol[5].0 == ExternalSecrets && ol[6].0 == AlbIngress && ol[7].0 == ExternalDns;
    var s := root.PreOrder();
    forall i, j | 0 <= i < j < |s|
      ensures s[i].ty != s[j].ty
    {
      assert s[i].ty == ol[i].0 && s[j].ty == ol[j].0;
    }
  }

  /** The types of `k` zone entries: the zone type, unless there are none. */
  lemma ZoneEntryTypes(k: nat)
    ensures OutlineTypes(ZoneEntries(k)) == if k > 0 then {Zone} else {}
  {
    if k > 0 {
      assert ZoneEntries(k)[0].0 == Zone;
    }
  }

  /** The desired tree holds a zone node exactly when a DNS zone is declared, and every other type of the current tree. */
  lemma {:induction false} DesiredTreeTypes(root: Node, c: ClusterDeclaration)
    requires root.Valid() && ShapeOf(root) == DesiredShape(c)
    ensures TypesIn(root) == DesiredTypes(c)
  {
    TypesInOutline(root);
    DesiredOutline(c);
    var i := c.integrations;
    var top: seq<(NodeType, NodeState)> := [(Group, Present)];
    var rest: seq<(NodeType, NodeState)> := [
      (Github, Present), (VPC, Present), (Cluster, Present), (ExternalSecrets, StateOf(i.externalSecrets)),
      (AlbIngress, StateOf(i.albIngressController)), (ExternalDns, StateOf(i.externalDns))];
    OutlineTypesAppend(top + ZoneEntries(|c.dnsZones|), rest);
    OutlineTypesAppend(top, ZoneEntries(|c.dnsZones|));
    ZoneEntryTypes(|c.dnsZones|);
    assert top[0].0 == Group;
    assert rest[0].0 == Github && rest[1].0 == VPC && rest[2].0 == Cluster;
    assert rest[3].0 == ExternalSecrets && rest[4].0 == AlbIngress && rest[5].0 == ExternalDns;
  }

  /**
   * Every node of a desired tree finds a node of its own type in a current
   * tree: what `Synchronize` demands of the two trees it compares.
   */
  lemma CurrentCoversDesired(current: Node, o: ExistingServices, desired: Node, c: ClusterDeclaration)
    requires current.Valid() && ShapeOf(current) == CurrentShape(o)
    requires desired.Valid() && ShapeOf(desired) == DesiredShape(c)
    ensures current.Covers(desired.repr)
  {
    CurrentTreeTypes(current, o);
    DesiredTreeTypes(desired, c);
    forall n | n in desired.repr
      ensures current.GetNode(n) != null
    {
      assert n.ty in TypesIn(desired);
      FoundIff(current, n.ty);
    }
  }

  /** In the current tree GitHub is always Absent, whatever was found. */
  lemma CurrentGithubAbsent(root: Node, o: ExistingServices, m: Node)
    requires root.Valid() && ShapeOf(root) == CurrentShape(o) && m in root.repr && m.ty == Github
    ensures m.state == Absent
  {
    var k := EntryOf(root, m);
    CurrentOutline(o);
  }
}
