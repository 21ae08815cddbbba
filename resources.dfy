/**
 * The vocabulary of the resource tree: node types and states, the
 * type-specific metadata a node carries from the cluster declaration, the
 * resource state its refresher gathers at run time, and the refreshers.
 */
module Resources {
  import opened Api

  /**
   * The kinds of node. `Group` is the root type (called `...TypeNoop` in one
   * copy of the tree code and `...TypeGroup` in the other).
   */
  datatype NodeType =
    | Group | Zone | VPC | Cluster | ExternalSecrets | AlbIngress | ExternalDns | Github
    | IdentityManager | ArgoCd | ContainerRepository | Application

  /** What should happen to a resource: nothing, make sure it exists, make sure it does not. */
  datatype NodeState = Noop | Present | Absent

  /** The type-specific metadata taken from the declaration; `NoMetadata` is Go's nil. */
  datatype Metadata =
    | NoMetadata
    | HostedZoneMetadata(domain: string)
    | VpcMetadata(cidr: string, highAvailability: bool)
    | GithubMetadata(organization: string, repository: string)
    | ArgocdMetadata(organization: string)

  /** An opaque reference to a function of the repository state (the GitHub getter and saver). */
  type Handle = nat

  /** Data only available at run time, filled in by a refresher; `NoResourceState` is Go's nil. */
  datatype ResourceState =
    | NoResourceState
    | ClusterResourceState(vpc: Vpc)
    | AlbIngressResourceState(vpcId: string)
    | ExternalDnsResourceState(hostedZoneId: string, domain: string)
    | IdentityManagerResourceState(hostedZoneId: string, domain: string)
    | GithubResourceState(getter: Handle, saver: Handle)
    | ArgocdResourceState(hostedZone: Option<HostedZone>, repository: Option<GithubRepository>,
                          userPoolId: string, authDomain: string)

  /**
   * What the refreshers read when they run: the VPC outputs file (`None`
   * when it cannot be read) and the values the fetchers return at that moment.
   */
  datatype Observed = Observed(vpcOutputs: Option<Vpc>, cidr: string, domain: string, hostedZoneId: string,
                               primaryHostedZone: Option<HostedZone>)

  /** The refresher closures, one constructor per `Create...Refresher`, with what each captured. */
  datatype Refresher =
    | ClusterRefresher
    | AlbIngressRefresher
    | ExternalDnsRefresher
    | IdentityManagerRefresher
    | GithubRefresher(getter: Handle, saver: Handle)
    | ArgocdRefresher
  {
    /** The refreshers that read the VPC outputs file; reading it is fatal when it fails. */
    predicate ReadsVpcOutputs() {
      ClusterRefresher? || AlbIngressRefresher?
    }

    /** Whether this refresher can run in `obs` without a fatal error. */
    predicate CanRun(obs: Observed) {
      ReadsVpcOutputs() ==> obs.vpcOutputs.Some?
    }

    /** The resource state this refresher stores on its node. */
    function Refresh(obs: Observed): (rs: ResourceState)
      requires CanRun(obs)
      ensures rs != NoResourceState
      ensures ClusterRefresher? ==> rs.ClusterResourceState? && rs.vpc.cidr == obs.cidr &&
                                    rs.vpc == obs.vpcOutputs.value.(cidr := rs.vpc.cidr)
      ensures AlbIngressRefresher? ==> rs.AlbIngressResourceState? && rs.vpcId == obs.vpcOutputs.value.vpcId
      ensures ExternalDnsRefresher? ==> rs == ExternalDnsResourceState(obs.hostedZoneId, obs.domain)
      ensures IdentityManagerRefresher? ==> rs == IdentityManagerResourceState(obs.hostedZoneId, obs.domain)
      ensures ArgocdRefresher? ==> rs.ArgocdResourceState? && rs.hostedZone == obs.primaryHostedZone &&
                                   rs.repository.None? && rs.userPoolId == "" && rs.authDomain == ""
    {
      match this
      case ClusterRefresher => ClusterResourceState(obs.vpcOutputs.value.(cidr := obs.cidr))
      case AlbIngressRefresher => AlbIngressResourceState(obs.vpcOutputs.value.vpcId)
      case ExternalDnsRefresher => ExternalDnsResourceState(obs.hostedZoneId, obs.domain)
      case IdentityManagerRefresher => IdentityManagerResourceState(obs.hostedZoneId, obs.domain)
      case GithubRefresher(getter, saver) => GithubResourceState(getter, saver)
      case ArgocdRefresher => ArgocdResourceState(obs.primaryHostedZone, None, "", "")
    }
  }

  /** The resource state a node holds after `RefreshState`: unchanged without a refresher. */
  function Refreshed(refresher: Option<Refresher>, rs: ResourceState, obs: Observed): (r: ResourceState)
    requires refresher.Some? ==> refresher.value.CanRun(obs)
    ensures refresher.None? ==> r == rs
    ensures refresher.Some? ==> r == refresher.value.Refresh(obs)
  {
    if refresher.None? then rs else refresher.value.Refresh(obs)
  }
}
