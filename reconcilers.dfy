/**
 * The per-resource reconcilers. Each one looks at a node's state (and at its
 * metadata or resource state), makes at most one create or delete call on
 * its service, and reports whether the node must be requeued.
 *
 * A service is an oracle `fails` that says whether a call returns an error.
 * A reconciler's effect on the world is the list of calls it made, which the
 * outcome carries.
 */
module Reconcilers {
  import opened Api
  import opened Resources
  import opened ResourceTree

  /** The reconciler implementations of the core. */
  datatype Kind =
    | NoopKind | ZoneKind | ClusterKind | AlbIngressKind | ExternalDnsKind | ExternalSecretsKind
    | IdentityManagerKind | ArgoCdKind

  /**
   * `call` was made once and is the only call: when the service fails, the
   * node is requeued and the service's error is wrapped under `context`;
   * otherwise the reconciliation is done.
   */
  predicate AttemptedOnce(o: Outcome, call: ServiceCall, context: Message, fails: ServiceCall -> bool) {
    o.calls == [call] &&
    (fails(call) ==> o.result == Some(ReconciliationResult(true)) && o.err == Some(Wrapped(context, ServiceError(call)))) &&
    (!fails(call) ==> o.Done())
  }

  /** The no-op reconciler: done, whatever the node holds, without a call. */
  function NoopOutcome(): (o: Outcome)
    ensures o.Done() && o.calls == []
  {
    Idle
  }

  /** The primary hosted zone: created from the declared domain, deleted by identity alone. */
  function ZoneOutcome(state: NodeState, metadata: Metadata, common: Option<CommonMetadata>,
                       fails: ServiceCall -> bool): (o: Outcome)
    requires metadata.HostedZoneMetadata? && state != Noop ==> common.Some?
    ensures !metadata.HostedZoneMetadata? ==> o.Refused(CastingHostedZoneMetadata)
    ensures metadata.HostedZoneMetadata? && state == Present ==>
      AttemptedOnce(o, CreatePrimaryHostedZone(common.value.id, metadata.domain, Fqdn(metadata.domain)),
                    CreatingHostedZone, fails)
    ensures metadata.HostedZoneMetadata? && state == Absent ==>
      AttemptedOnce(o, DeletePrimaryHostedZone(common.value.id), DeletingHostedZone, fails)
    ensures metadata.HostedZoneMetadata? && state == Noop ==> o == Idle
  {
    if !metadata.HostedZoneMetadata? then Outcome(None, Some(Failure(CastingHostedZoneMetadata)), [])
    else
      match state
      case Present =>
        Attempt(CreatePrimaryHostedZone(common.value.id, metadata.domain, Fqdn(metadata.domain)), CreatingHostedZone, fails)
      case Absent =>
        Attempt(DeletePrimaryHostedZone(common.value.id), DeletingHostedZone, fails)
      case Noop => Idle
  }

  /** The cluster: created inside the VPC its refresher found, deleted by identity alone. */
  function ClusterOutcome(state: NodeState, rs: ResourceState, common: Option<CommonMetadata>,
                          fails: ServiceCall -> bool): (o: Outcome)
    requires rs.ClusterResourceState? && state != Noop ==> common.Some?
    ensures !rs.ClusterResourceState? ==> o.Refused(CastingClusterState)
    ensures rs.ClusterResourceState? && state == Present ==>
      AttemptedOnce(o, CreateCluster(common.value.id, rs.vpc.cidr, rs.vpc.vpcId, rs.vpc.privateSubnets, rs.vpc.publicSubnets),
                    CreatingCluster, fails)
    ensures rs.ClusterResourceState? && state == Absent ==>
      AttemptedOnce(o, DeleteCluster(common.value.id), DeletingCluster, fails)
    ensures rs.ClusterResourceState? && state == Noop ==> o == Idle
  {
    if !rs.ClusterResourceState? then Outcome(None, Some(Failure(CastingClusterState)), [])
    else
      match state
      case Present =>
        Attempt(CreateCluster(common.value.id, rs.vpc.cidr, rs.vpc.vpcId, rs.vpc.privateSubnets, rs.vpc.publicSubnets),
                CreatingCluster, fails)
      case Absent => Attempt(DeleteCluster(common.value.id), DeletingCluster, fails)
      case Noop => Idle
  }

  /** The ALB ingress controller: created in the VPC its refresher found, deleted by identity. */
  function AlbIngressOutcome(state: NodeState, rs: ResourceState, common: Option<CommonMetadata>,
                             fails: ServiceCall -> bool): (o: Outcome)
    requires rs.AlbIngressResourceState? && state != Noop ==> common.Some?
    ensures !rs.AlbIngressResourceState? ==> o.Refused(CastingAlbIngressState)
    ensures rs.AlbIngressResourceState? && state == Present ==>
      AttemptedOnce(o, CreateAlbIngressController(common.value.id, rs.vpcId), CreatingAlbIngress, fails)
    ensures rs.AlbIngressResourceState? && state == Absent ==>
      AttemptedOnce(o, DeleteAlbIngressController(common.value.id), DeletingAlbIngress, fails)
    ensures rs.AlbIngressResourceState? && state == Noop ==> o == Idle
  {
    if !rs.AlbIngressResourceState? then Outcome(None, Some(Failure(CastingAlbIngressState)), [])
    else
      match state
      case Present =>
        Attempt(CreateAlbIngressController(common.value.id, rs.vpcId), CreatingAlbIngress, fails)
      case Absent =>
        Attempt(DeleteAlbIngressController(common.value.id), DeletingAlbIngress, fails)
      case Noop => Idle
  }

  /**
   * External DNS: created for the hosted zone its refresher found, with the
   * empty identity rather than the common one; deleted by the common identity.
   * Both calls go through the common metadata's request context.
   */
  function ExternalDnsOutcome(state: NodeState, rs: ResourceState, common: Option<CommonMetadata>,
                              fails: ServiceCall -> bool): (o: Outcome)
    requires rs.ExternalDnsResourceState? && state != Noop ==> common.Some?
    ensures !rs.ExternalDnsResourceState? ==> o.Refused(CastingExternalDnsState)
    ensures rs.ExternalDnsResourceState? && state == Present ==>
      AttemptedOnce(o, CreateExternalDns(EmptyID, rs.hostedZoneId, rs.domain), CreatingExternalDns, fails)
    ensures rs.ExternalDnsResourceState? && state == Absent ==>
      AttemptedOnce(o, DeleteExternalDns(common.value.id), DeletingExternalDns, fails)
    ensures rs.ExternalDnsResourceState? && state == Noop ==> o == Idle
  {
    if !rs.ExternalDnsResourceState? then Outcome(None, Some(Failure(CastingExternalDnsState)), [])
    else
      match state
      case Present => Attempt(CreateExternalDns(EmptyID, rs.hostedZoneId, rs.domain), CreatingExternalDns, fails)
      case Absent => Attempt(DeleteExternalDns(common.value.id), DeletingExternalDns, fails)
      case Noop => Idle
  }

  /** External secrets: no metadata or resource state is looked at; created and deleted by identity. */
  function ExternalSecretsOutcome(state: NodeState, common: Option<CommonMetadata>, fails: ServiceCall -> bool): (o: Outcome)
    requires state != Noop ==> common.Some?
    ensures state == Present ==> AttemptedOnce(o, CreateExternalSecrets(common.value.id), CreatingExternalSecrets, fails)
    ensures state == Absent ==> AttemptedOnce(o, DeleteExternalSecrets(common.value.id), DeletingExternalSecrets, fails)
    ensures state == Noop ==> o == Idle
  {
    match state
    case Present => Attempt(CreateExternalSecrets(common.value.id), CreatingExternalSecrets, fails)
    case Absent => Attempt(DeleteExternalSecrets(common.value.id), DeletingExternalSecrets, fails)
    case Noop => Idle
  }

  /**
   * The identity manager: an identity pool for `auth.<domain>` in the hosted
   * zone its refresher found. Deleting it is refused as not implemented.
   */
  function IdentityManagerOutcome(state: NodeState, rs: ResourceState, common: Option<CommonMetadata>,
                                  fails: ServiceCall -> bool): (o: Outcome)
    requires rs.IdentityManagerResourceState? && state == Present ==> common.Some?
    ensures !rs.IdentityManagerResourceState? ==> o.Refused(CastingIdentityManagerState)
    ensures rs.IdentityManagerResourceState? && state == Present ==>
      AttemptedOnce(o, CreateIdentityPool(common.value.id, "auth." + rs.domain, Fqdn("auth." + rs.domain), rs.hostedZoneId),
                    CreatingIdentityManager, fails)
    ensures rs.IdentityManagerResourceState? && state == Absent ==>
      o.Refused(IdentityManagerDeletionMissing)
    ensures rs.IdentityManagerResourceState? && state == Noop ==> o == Idle
  {
    if !rs.IdentityManagerResourceState? then Outcome(None, Some(Failure(CastingIdentityManagerState)), [])
    else
      match state
      case Present =>
        var authDomain := "auth." + rs.domain;
        Attempt(CreateIdentityPool(common.value.id, authDomain, Fqdn(authDomain), rs.hostedZoneId),
                CreatingIdentityManager, fails)
      case Absent => Outcome(None, Some(Failure(IdentityManagerDeletionMissing)), [])
      case Noop => Idle
  }

  /**
   * Argo CD: created from the primary hosted zone and the GitHub repository
   * in its resource state, both of which it dereferences. Deleting it is
   * refused as not implemented.
   */
  function ArgoCdOutcome(state: NodeState, rs: ResourceState, common: Option<CommonMetadata>,
                         fails: ServiceCall -> bool): (o: Outcome)
    requires rs.ArgocdResourceState? && state == Present ==>
      common.Some? && rs.hostedZone.Some? && rs.repository.Some?
    ensures !rs.ArgocdResourceState? ==> o.Refused(CastingArgoCdState)
    ensures rs.ArgocdResourceState? && state == Present ==>
      var zone := rs.hostedZone.value;
      var repository := rs.repository.value;
      AttemptedOnce(o, CreateArgoCd(common.value.id, zone.domain, zone.fqdn, zone.id, repository.organisation,
                                    rs.userPoolId, rs.authDomain, repository),
                    CreatingArgoCd, fails)
    ensures rs.ArgocdResourceState? && state == Absent ==> o.Refused(ArgoCdDeletionMissing)
    ensures rs.ArgocdResourceState? && state == Noop ==> o == Idle
  {
    if !rs.ArgocdResourceState? then Outcome(None, Some(Failure(CastingArgoCdState)), [])
    else
      match state
      case Present =>
        var zone := rs.hostedZone.value;
        var repository := rs.repository.value;
        Attempt(CreateArgoCd(common.value.id, zone.domain, zone.fqdn, zone.id, repository.organisation,
                             rs.userPoolId, rs.authDomain, repository),
                CreatingArgoCd, fails)
      case Absent => Outcome(None, Some(Failure(ArgoCdDeletionMissing)), [])
      case Noop => Idle
  }

  /** Whether `call` is one of the calls a reconciler of `kind` may make. */
  predicate Serves(kind: Kind, call: ServiceCall) {
    match kind
    case NoopKind => false
    case ZoneKind => call.CreatePrimaryHostedZone? || call.DeletePrimaryHostedZone?
    case ClusterKind => call.CreateCluster? || call.DeleteCluster?
    case AlbIngressKind => call.CreateAlbIngressController? || call.DeleteAlbIngressController?
    case ExternalDnsKind => call.CreateExternalDns? || call.DeleteExternalDns?
    case ExternalSecretsKind => call.CreateExternalSecrets? || call.DeleteExternalSecrets?
    case IdentityManagerKind => call.CreateIdentityPool?
    case ArgoCdKind => call.CreateArgoCd?
  }

  /** A reconciler as the dispatcher sees it: its implementation and the common metadata it holds (Go's nil is `None`). */
  datatype Handler = Handler(kind: Kind, common: Option<CommonMetadata>)
  {
    /**
     * Whether reconciling a node with this state, metadata and resource
     * state dereferences nil: the common metadata when a call is
     * due, and Argo CD's hosted zone and repository when it is created.
     */
    predicate Panics(state: NodeState, metadata: Metadata, rs: ResourceState) {
      match kind
      case NoopKind => false
      case ZoneKind => metadata.HostedZoneMetadata? && state != Noop && common.None?
      case ClusterKind => rs.ClusterResourceState? && state != Noop && common.None?
      case AlbIngressKind => rs.AlbIngressResourceState? && state != Noop && common.None?
      case ExternalDnsKind => rs.ExternalDnsResourceState? && state != Noop && common.None?
      case ExternalSecretsKind => state != Noop && common.None?
      case IdentityManagerKind => rs.IdentityManagerResourceState? && state == Present && common.None?
      case ArgoCdKind =>
        rs.ArgocdResourceState? && state == Present && (common.None? || rs.hostedZone.None? || rs.repository.None?)
    }

    /** What reconciling a node returns; every implementation's outcome has the common shape `Conforms` describes. */
    function Run(state: NodeState, metadata: Metadata, rs: ResourceState, fails: ServiceCall -> bool): (o: Outcome)
      requires !Panics(state, metadata, rs)
      ensures Conforms(o, kind, state, fails)
    {
      match kind
      case NoopKind => NoopOutcome()
      case ZoneKind => ZoneConforms(state, metadata, common, fails); ZoneOutcome(state, metadata, common, fails)
      case ClusterKind => ClusterConforms(state, rs, common, fails); ClusterOutcome(state, rs, common, fails)
      case AlbIngressKind => AlbIngressConforms(state, rs, common, fails); AlbIngressOutcome(state, rs, common, fails)
      case ExternalDnsKind => ExternalDnsConforms(state, rs, common, fails); ExternalDnsOutcome(state, rs, common, fails)
      case ExternalSecretsKind =>
        ExternalSecretsConforms(state, common, fails); ExternalSecretsOutcome(state, common, fails)
      case IdentityManagerKind =>
        IdentityManagerConforms(state, rs, common, fails); IdentityManagerOutcome(state, rs, common, fails)
      case ArgoCdKind => ArgoCdConforms(state, rs, common, fails); ArgoCdOutcome(state, rs, common, fails)
    }
  }

  /**
   * The shape of every reconciliation outcome of `kind` on a node in
   * `state`: a Noop node makes no call; at most one call is made, and only
   * one that `kind` serves; the result is an error exactly when it is not
   * done; with a call, the error is there exactly when the call failed, and
   * then the node is requeued and the service's error is wrapped; without a
   * call, an error is a plain refusal with no result.
   */
  predicate Conforms(o: Outcome, kind: Kind, state: NodeState, fails: ServiceCall -> bool) {
    (state == Noop ==> o.calls == []) &&
    |o.calls| <= 1 && (forall c | c in o.calls :: Serves(kind, c)) &&
    (o.err.None? <==> o.Done()) &&
    (o.calls != [] ==> (o.err.Some? <==> fails(o.calls[0]))) &&
    (o.calls != [] && o.err.Some? ==>
      o.result == Some(ReconciliationResult(true)) && o.err.value.Wrapped? && o.err.value.cause == ServiceError(o.calls[0])) &&
    (o.calls == [] && o.err.Some? ==> o.result.None? && o.err.value.Failure?)
  }

  lemma AttemptConforms(o: Outcome, kind: Kind, state: NodeState, call: ServiceCall, context: Message, fails: ServiceCall -> bool)
    requires AttemptedOnce(o, call, context, fails) && Serves(kind, call) && state != Noop
    ensures Conforms(o, kind, state, fails)
  {
  }

  lemma ZoneConforms(state: NodeState, metadata: Metadata, common: Option<CommonMetadata>, fails: ServiceCall -> bool)
    requires metadata.HostedZoneMetadata? && state != Noop ==> common.Some?
    ensures Conforms(ZoneOutcome(state, metadata, common, fails), ZoneKind, state, fails)
  {
    var o := ZoneOutcome(state, metadata, common, fails);
    if metadata.HostedZoneMetadata? && state != Noop {
      AttemptConforms(o, ZoneKind, state, o.calls[0], if state == Present then CreatingHostedZone else DeletingHostedZone, fails);
    }
  }

  lemma ClusterConforms(state: NodeState, rs: ResourceState, common: Option<CommonMetadata>, fails: ServiceCall -> bool)
    requires rs.ClusterResourceState? && state != Noop ==> common.Some?
    ensures Conforms(ClusterOutcome(state, rs, common, fails), ClusterKind, state, fails)
  {
    var o := ClusterOutcome(state, rs, common, fails);
    if rs.ClusterResourceState? && state != Noop {
      AttemptConforms(o, ClusterKind, state, o.calls[0], if state == Present then CreatingCluster else DeletingCluster, fails);
    }
  }

  lemma AlbIngressConforms(state: NodeState, rs: ResourceState, common: Option<CommonMetadata>, fails: ServiceCall -> bool)
    requires rs.AlbIngressResourceState? && state != Noop ==> common.Some?
    ensures Conforms(AlbIngressOutcome(state, rs, common, fails), AlbIngressKind, state, fails)
  {
    var o := AlbIngressOutcome(state, rs, common, fails);
    if rs.AlbIngressResourceState? && state != Noop {
      AttemptConforms(o, AlbIngressKind, state, o.calls[0],
                      if state == Present then CreatingAlbIngress else DeletingAlbIngress, fails);
    }
  }

  lemma ExternalDnsConforms(state: NodeState, rs: ResourceState, common: Option<CommonMetadata>, fails: ServiceCall -> bool)
    requires rs.ExternalDnsResourceState? && state != Noop ==> common.Some?
    ensures Conforms(ExternalDnsOutcome(state, rs, common, fails), ExternalDnsKind, state, fails)
  {
    var o := ExternalDnsOutcome(state, rs, common, fails);
    if rs.ExternalDnsResourceState? && state != Noop {
      AttemptConforms(o, ExternalDnsKind, state, o.calls[0],
                      if state == Present then CreatingExternalDns else DeletingExternalDns, fails);
    }
  }

  lemma ExternalSecretsConforms(state: NodeState, common: Option<CommonMetadata>, fails: ServiceCall -> bool)
    requires state != Noop ==> common.Some?
    ensures Conforms(ExternalSecretsOutcome(state, common, fails), ExternalSecretsKind, state, fails)
  {
    var o := ExternalSecretsOutcome(state, common, fails);
    if state != Noop {
      AttemptConforms(o, ExternalSecretsKind, state, o.calls[0],
                      if state == Present then CreatingExternalSecrets else DeletingExternalSecrets, fails);
    }
  }

  lemma IdentityManagerConforms(state: NodeState, rs: ResourceState, common: Option<CommonMetadata>, fails: ServiceCall -> bool)
    requires rs.IdentityManagerResourceState? && state == Present ==> common.Some?
    ensures Conforms(IdentityManagerOutcome(state, rs, common, fails), IdentityManagerKind, state, fails)
  {
    var o := IdentityManagerOutcome(state, rs, common, fails);
    if rs.IdentityManagerResourceState? && state == Present {
      AttemptConforms(o, IdentityManagerKind, state, o.calls[0], CreatingIdentityManager, fails);
    }
  }

  lemma ArgoCdConforms(state: NodeState, rs: ResourceState, common: Option<CommonMetadata>, fails: ServiceCall -> bool)
    requires rs.ArgocdResourceState? && state == Present ==> common.Some? && rs.hostedZone.Some? && rs.repository.Some?
    ensures Conforms(ArgoCdOutcome(state, rs, common, fails), ArgoCdKind, state, fails)
  {
    var o := ArgoCdOutcome(state, rs, common, fails);
    if rs.ArgocdResourceState? && state == Present {
      AttemptConforms(o, ArgoCdKind, state, o.calls[0], CreatingArgoCd, fails);
    }
  }

  /** A node refreshed by the Argo CD refresher cannot be created: the refresher never fills in the repository. */
  lemma ArgoCdRefreshedCannotCreate(obs: Observed, common: Option<CommonMetadata>)
    ensures Handler(ArgoCdKind, common).Panics(Present, NoMetadata, ArgocdRefresher.Refresh(obs))
  {
  }

  /** Whether creating Argo CD from `rs` would dereference a missing hosted zone or repository. */
  predicate ArgoCdIncomplete(state: NodeState, rs: ResourceState) {
    rs.ArgocdResourceState? && state == Present && (rs.hostedZone.None? || rs.repository.None?)
  }

  /**
   * The Argo CD reconciler as evidently intended: a resource state without a
   * hosted zone or a repository is refused with an error and no call, where
   * `ArgoCdOutcome` dereferences nil; on every other input the two agree.
   */
  function ArgoCdCheckedOutcome(state: NodeState, rs: ResourceState, common: Option<CommonMetadata>,
                                fails: ServiceCall -> bool): (o: Outcome)
    requires rs.ArgocdResourceState? && state == Present ==> common.Some?
    ensures Conforms(o, ArgoCdKind, state, fails)
    ensures ArgoCdIncomplete(state, rs) ==> o.Refused(ArgoCdStateIncomplete)
    ensures !ArgoCdIncomplete(state, rs) ==> o == ArgoCdOutcome(state, rs, common, fails)
  {
    if ArgoCdIncomplete(state, rs) then Outcome(None, Some(Failure(ArgoCdStateIncomplete)), [])
    else
      ArgoCdConforms(state, rs, common, fails);
      ArgoCdOutcome(state, rs, common, fails)
  }

  /** With the check, a node refreshed by the Argo CD refresher is refused with an error instead of crashing. */
  lemma ArgoCdRefreshedRefused(obs: Observed, common: Option<CommonMetadata>, fails: ServiceCall -> bool)
    requires common.Some?
    ensures ArgoCdCheckedOutcome(Present, ArgocdRefresher.Refresh(obs), common, fails).Refused(ArgoCdStateIncomplete)
  {
  }

  /** A reconciler object: its implementation never changes, the common metadata it holds does. */
  class Reconciler {
    const kind: Kind
    var common: Option<CommonMetadata>

    /** A reconciler as its `New...Reconsiler` function makes it, without common metadata. */
    constructor (kind: Kind)
      ensures this.kind == kind && common.None?
    {
      this.kind := kind;
      common := None;
    }

    /** The reconciler as the dispatcher sees it now. */
    function Behaviour(): Handler
      reads this`common
    {
      Handler(kind, common)
    }

    /** Stores the common metadata; the no-op reconciler stores nothing. */
    method SetCommonMetadata(metadata: Option<CommonMetadata>)
      modifies this`common
      ensures common == (if kind == NoopKind then old(common) else metadata)
    {
      if kind != NoopKind {
        common := metadata;
      }
    }

    /** Reconciles `node` as its state, metadata and resource state stand; the node is not changed. */
    method Reconcile(node: Node, fails: ServiceCall -> bool) returns (o: Outcome)
      requires !Behaviour().Panics(node.state, node.metadata, node.resourceState)
      ensures o == Behaviour().Run(node.state, node.metadata, node.resourceState, fails)
    {
      match kind
      case NoopKind => o := NoopOutcome();
      case ZoneKind => o := ZoneOutcome(node.state, node.metadata, common, fails);
      case ClusterKind => o := ClusterOutcome(node.state, node.resourceState, common, fails);
      case AlbIngressKind => o := AlbIngressOutcome(node.state, node.resourceState, common, fails);
      case ExternalDnsKind => o := ExternalDnsOutcome(node.state, node.resourceState, common, fails);
      case ExternalSecretsKind => o := ExternalSecretsOutcome(node.state, common, fails);
      case IdentityManagerKind => o := IdentityManagerOutcome(node.state, node.resourceState, common, fails);
      case ArgoCdKind => o := ArgoCdOutcome(node.state, node.resourceState, common, fails);
    }
  }
}
