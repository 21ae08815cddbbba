/**
 * Copying the cluster declaration's metadata onto the desired tree: the
 * primary hosted zone node gets the first DNS zone's parent domain, the
 * VPC node the declared CIDR and availability, the GitHub node the
 * organisation and the repository's full name, and an ArgoCD node, if the
 * tree has one, the organisation. Each node is looked up by type; a
 * missing zone, VPC or (where demanded) GitHub node is an error, and so is
 * a failed lookup of the repository's name. What was written before an
 * error stays written.
 */
module DesiredMetadata {
  import opened Api
  import opened Resources
  import opened ResourceTree
  import opened Builders

  /** What looking up the full name of the GitHub repository from the repository directory gave. */
  datatype RepoLookup = RepoFound(fullName: string) | RepoFailed(cause: string)

  datatype MetadataError = ZoneNodeMissing | VpcNodeMissing | GithubNodeMissing | RepoNameFailed(cause: string)

  /** The error as the program words it. */
  function MetadataErrorText(e: MetadataError): string {
    match e
    case ZoneNodeMissing => "expected primary hosted zone node was not found"
    case VpcNodeMissing => "expected vpc node was not found"
    case GithubNodeMissing => "expected github node was not found"
    case RepoNameFailed(cause) => "error fetching full git repo name: " + cause
  }

  /** The error, if any, and the metadata written, by the type of the node it went to. */
  datatype MetadataPlan = MetadataPlan(err: Option<MetadataError>, writes: map<NodeType, Metadata>)

  /** The node types that receive metadata. */
  const MetadataTypes: set<NodeType> := {Zone, VPC, Github, ArgoCd}

  /** The metadata the declaration gives a node of type `t`, with `repoName` as the repository's full name. */
  function DeclaredFor(t: NodeType, c: ClusterDeclaration, repoName: string): Metadata
    requires t == Zone ==> |c.dnsZones| > 0
  {
    match t
    case Zone => HostedZoneMetadata(c.dnsZones[0].parentDomain)
    case VPC => VpcMetadata(c.vpc.cidr, c.vpc.highAvailability)
    case Github => GithubMetadata(c.githubOrganisation, repoName)
    case ArgoCd => ArgocdMetadata(c.githubOrganisation)
    case _ => NoMetadata
  }

  /** The declaration's metadata for each type of `types` that receives metadata. */
  function Declared(types: set<NodeType>, c: ClusterDeclaration, repoName: string): map<NodeType, Metadata>
    requires Zone in types ==> |c.dnsZones| > 0
  {
    map t | t in types && t in MetadataTypes :: DeclaredFor(t, c, repoName)
  }

  /**
   * What `ApplyDesiredStateMetadata` does to a tree holding the types
   * `found`: the checks in the program's order, and the metadata written
   * before the first that fails. `githubRequired` selects the copy of the
   * builders that demands a GitHub node.
   */
  function PlanMetadata(found: set<NodeType>, c: ClusterDeclaration, repo: RepoLookup, githubRequired: bool)
    : (p: MetadataPlan)
    requires Zone in found ==> |c.dnsZones| > 0
    ensures p.writes.Keys <= found * MetadataTypes
    ensures forall t | t in p.writes :: p.writes[t].NoMetadata? == false
  {
    if Zone !in found then MetadataPlan(Some(ZoneNodeMissing), map[])
    else
      var zone := map[Zone := HostedZoneMetadata(c.dnsZones[0].parentDomain)];
      if VPC !in found then MetadataPlan(Some(VpcNodeMissing), zone)
      else
        var vpc := zone[VPC := VpcMetadata(c.vpc.cidr, c.vpc.highAvailability)];
        if Github !in found && githubRequired then MetadataPlan(Some(GithubNodeMissing), vpc)
        else if Github in found && repo.RepoFailed? then MetadataPlan(Some(RepoNameFailed(repo.cause)), vpc)
        else
          var github := if Github in found then vpc[Github := GithubMetadata(c.githubOrganisation, repo.fullName)] else vpc;
          MetadataPlan(None, if ArgoCd in found then github[ArgoCd := ArgocdMetadata(c.githubOrganisation)] else github)
  }

  /**
   * The copy fails exactly when the zone or the VPC node is missing, when
   * a GitHub node is demanded and missing, or when there is a GitHub node
   * and its repository's name cannot be found; the error names the first
   * of these in that order.
   */
  lemma MetadataFailsIff(found: set<NodeType>, c: ClusterDeclaration, repo: RepoLookup, githubRequired: bool)
    requires Zone in found ==> |c.dnsZones| > 0
    ensures var p := PlanMetadata(found, c, repo, githubRequired);
      (p.err.Some? <==>
        Zone !in found || VPC !in found || (githubRequired && Github !in found) || (Github in found && repo.RepoFailed?)) &&
      (Zone !in found ==> p.err == Some(ZoneNodeMissing)) &&
      (Zone in found && VPC !in found ==> p.err == Some(VpcNodeMissing)) &&
      (Zone in found && VPC in found && githubRequired && Github !in found ==> p.err == Some(GithubNodeMissing)) &&
      (Zone in found && VPC in found && Github in found && repo.RepoFailed? ==> p.err == Some(RepoNameFailed(repo.cause)))
  {
  }

  /**
   * On success every found node type that receives metadata has the
   * declaration's metadata written, with the repository's full name for
   * GitHub, and nothing else is written.
   */
  lemma MetadataOnSuccess(found: set<NodeType>, c: ClusterDeclaration, repo: RepoLookup, githubRequired: bool)
    requires Zone in found ==> |c.dnsZones| > 0
    requires PlanMetadata(found, c, repo, githubRequired).err.None?
    ensures Github in found ==> repo.RepoFound?
    ensures PlanMetadata(found, c, repo, githubRequired).writes
         == Declared(found, c, if repo.RepoFound? then repo.fullName else "")
  {
    var p := PlanMetadata(found, c, repo, githubRequired);
    var d := Declared(found, c, if repo.RepoFound? then repo.fullName else "");
    assert p.writes.Keys == d.Keys;
  }

  /**
   * On failure only the checks passed have left metadata behind: nothing
   * when the zone node is missing, and otherwise the zone's and, if found,
   * the VPC's metadata; never GitHub's or ArgoCD's.
   */
  lemma MetadataOnFailure(found: set<NodeType>, c: ClusterDeclaration, repo: RepoLookup, githubRequired: bool)
    requires Zone in found ==> |c.dnsZones| > 0
    requires PlanMetadata(found, c, repo, githubRequired).err.Some?
    ensures var p := PlanMetadata(found, c, repo, githubRequired);
      p.writes == if p.err == Some(ZoneNodeMissing) then map[] else Declared(found * {Zone, VPC}, c, "")
  {
    var p := PlanMetadata(found, c, repo, githubRequired);
    if p.err != Some(ZoneNodeMissing) {
      assert p.writes.Keys == Declared(found * {Zone, VPC}, c, "").Keys;
    }
  }

  /**
   * The two copies of the program differ only on a tree without a GitHub
   * node: there, the one demanding it fails with `GithubNodeMissing` once
   * the zone and VPC are found, where the other succeeds.
   */
  lemma GithubRequirementOnlyMattersWhenMissing(found: set<NodeType>, c: ClusterDeclaration, repo: RepoLookup)
    requires Zone in found ==> |c.dnsZones| > 0
    ensures Github in found ==> PlanMetadata(found, c, repo, true) == PlanMetadata(found, c, repo, false)
    ensures Github !in found && Zone in found && VPC in found ==>
      PlanMetadata(found, c, repo, true).err == Some(GithubNodeMissing) &&
      PlanMetadata(found, c, repo, false).err.None?
    ensures Github !in found && !(Zone in found && VPC in found) ==>
      PlanMetadata(found, c, repo, true) == PlanMetadata(found, c, repo, false)
  {
  }

  /**
   * On a desired tree built from the declaration: without a DNS zone the
   * copy always fails for want of a zone node; with one, it succeeds
   * exactly when the repository's name is found, and then writes the zone,
   * VPC and GitHub metadata and nothing for ArgoCD, which that tree lacks.
   */
  lemma DesiredTreeMetadata(root: Node, c: ClusterDeclaration, repo: RepoLookup, githubRequired: bool)
    requires root.Valid() && ShapeOf(root) == DesiredShape(c)
    ensures Zone in TypesIn(root) ==> |c.dnsZones| > 0
    ensures var p := PlanMetadata(TypesIn(root), c, repo, githubRequired);
      (|c.dnsZones| == 0 ==> p.err == Some(ZoneNodeMissing) && p.writes == map[]) &&
      (|c.dnsZones| > 0 ==> (p.err.None? <==> repo.RepoFound?)) &&
      (|c.dnsZones| > 0 && repo.RepoFound? ==> p.writes == map[
        Zone := HostedZoneMetadata(c.dnsZones[0].parentDomain),
        VPC := VpcMetadata(c.vpc.cidr, c.vpc.highAvailability),
        Github := GithubMetadata(c.githubOrganisation, repo.fullName)])
  {
    DesiredTreeTypes(root, c);
    var found := TypesIn(root);
    if |c.dnsZones| > 0 {
      assert Zone in found && VPC in found && Github in found && ArgoCd !in found;
    }
  }

  // ---------------------------------------------------------------------
  // Writing the metadata onto the tree
  // ---------------------------------------------------------------------

  /** The metadata of each node of `s`. */
  ghost function MetadataOf(s: set<Node>): map<Node, Metadata>
    reads s`metadata
  {
    map n | n in s :: n.metadata
  }

  /**
   * The first node of each type in `writes` holds that type's metadata;
   * every other node holds what `before` recorded for it.
   */
  ghost predicate Written(graph: Node, writes: map<NodeType, Metadata>, before: map<Node, Metadata>)
    requires graph.Valid()
    reads graph`repr, graph.repr`repr, graph.repr`children, graph.repr`metadata
  {
    graph.repr <= before.Keys &&
    forall n | n in graph.repr ::
      n.metadata == if n.ty in writes && n == FirstOfType(graph.PreOrder(), n.ty) then writes[n.ty] else before[n]
  }

  /**
   * `graph.GetNode` with a probe node of type `t`: the first node of that
   * type in pre-order, or null. The tree and what was written are left as
   * they were.
   */
  method Find(graph: Node, t: NodeType, ghost writes: map<NodeType, Metadata>, ghost before: map<Node, Metadata>)
    returns (r: Node?)
    requires graph.Valid() && Written(graph, writes, before)
    ensures graph.Valid() && Written(graph, writes, before)
    ensures r == FirstOfType(graph.PreOrder(), t)
    ensures r != null <==> t in TypesIn(graph)
    ensures r != null ==> r in graph.repr && r.ty == t
  {
    var probe := new Node(t, Noop);
    r := graph.GetNode(probe);
    FoundIff(graph, t);
  }

  /** Writes `md` into `target`, the first node of its type. */
  method Write(graph: Node, target: Node, md: Metadata, ghost writes: map<NodeType, Metadata>,
               ghost before: map<Node, Metadata>)
    requires graph.Valid() && target in graph.repr && target == FirstOfType(graph.PreOrder(), target.ty)
    requires Written(graph, writes, before)
    modifies target`metadata
    ensures graph.Valid()
    ensures Written(graph, writes[target.ty := md], before)
  {
    target.metadata := md;
  }

  /**
   * Copies the declaration's metadata onto the tree, node type by node
   * type, stopping at the first check that fails; the error and the
   * metadata written are those `PlanMetadata` gives for the tree's types.
   */
  method ApplyDesiredStateMetadata(graph: Node, c: ClusterDeclaration, repo: RepoLookup, githubRequired: bool,
                                   ghost plan: MetadataPlan)
    returns (err: Option<MetadataError>)
    requires graph.Valid()
    requires Zone in TypesIn(graph) ==> |c.dnsZones| > 0
    requires plan == PlanMetadata(TypesIn(graph), c, repo, githubRequired)
    modifies graph.repr`metadata
    ensures err == plan.err
    ensures Written(graph, plan.writes, old(MetadataOf(graph.repr)))
  {
    ghost var before := MetadataOf(graph.repr);
    ghost var writes: map<NodeType, Metadata> := map[];
    assert Written(graph, writes, before);
    var zone := Find(graph, Zone, writes, before);
    if zone == null {
      return Some(ZoneNodeMissing);
    }
    var md := HostedZoneMetadata(c.dnsZones[0].parentDomain);
    Write(graph, zone, md, writes, before);
    writes := writes[Zone := md];

    var vpc := Find(graph, VPC, writes, before);
    if vpc == null {
      assert writes == plan.writes;
      return Some(VpcNodeMissing);
    }
    md := VpcMetadata(c.vpc.cidr, c.vpc.highAvailability);
    Write(graph, vpc, md, writes, before);
    writes := writes[VPC := md];

    var github := Find(graph, Github, writes, before);
    if github == null {
      if githubRequired {
        assert writes == plan.writes;
        return Some(GithubNodeMissing);
      }
    } else {
      if repo.RepoFailed? {
        assert writes == plan.writes;
        return Some(RepoNameFailed(repo.cause));
      }
      md := GithubMetadata(c.githubOrganisation, repo.fullName);
      Write(graph, github, md, writes, before);
      writes := writes[Github := md];
    }

    var argocd := Find(graph, ArgoCd, writes, before);
    if argocd != null {
      md := ArgocdMetadata(c.githubOrganisation);
      Write(graph, argocd, md, writes, before);
      writes := writes[ArgoCd := md];
    }
    assert writes == plan.writes;
    err := None;
  }
}
