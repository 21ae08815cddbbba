/**
 * Values exchanged between the reconcilers and the cloud-facing services:
 * the identity tuple every call carries, the records the services hand
 * back, the calls themselves, and the errors a reconciler can return.
 */
module Api {

  datatype Option<T> = None | Some(value: T)

  /** The identity tuple every create/delete call receives. The empty tuple is `ID("", "", "", "", "")`. */
  datatype ID = ID(region: string, awsAccountId: string, environment: string, repository: string, clusterName: string)

  const EmptyID := ID("", "", "", "", "")

  /** What the reconciler manager hands to each reconciler; the request context is not modelled. */
  datatype CommonMetadata = CommonMetadata(id: ID)

  /** The outputs of the VPC stack as far as the reconcilers use them. */
  datatype Vpc = Vpc(vpcId: string, cidr: string, privateSubnets: seq<string>, publicSubnets: seq<string>)

  /** A hosted zone as recorded in the repository state. */
  datatype HostedZone = HostedZone(id: string, domain: string, fqdn: string, primary: bool, managed: bool)

  datatype GithubRepository = GithubRepository(organisation: string, repository: string, fullName: string)

  /** One call a reconciler makes on a cloud-facing service, with the options it passes. */
  datatype ServiceCall =
    | CreatePrimaryHostedZone(id: ID, domain: string, fqdn: string)
    | DeletePrimaryHostedZone(id: ID)
    | CreateCluster(id: ID, cidr: string, vpcId: string, vpcPrivateSubnets: seq<string>, vpcPublicSubnets: seq<string>)
    | DeleteCluster(id: ID)
    | CreateAlbIngressController(id: ID, vpcId: string)
    | DeleteAlbIngressController(id: ID)
    | CreateExternalDns(id: ID, hostedZoneId: string, domain: string)
    | DeleteExternalDns(id: ID)
    | CreateExternalSecrets(id: ID)
    | DeleteExternalSecrets(id: ID)
    | CreateIdentityPool(id: ID, authDomain: string, authFqdn: string, hostedZoneId: string)
    | CreateArgoCd(id: ID, domain: string, fqdn: string, hostedZoneId: string, githubOrganisation: string,
                   userPoolId: string, authDomain: string, repository: GithubRepository)

  /**
   * The fixed messages the core's errors carry; `Text` spells out each one
   * as the program writes it.
   */
  datatype Message =
    | CastingHostedZoneMetadata | CreatingHostedZone | DeletingHostedZone | CastingClusterState
    | CreatingCluster | DeletingCluster | CastingAlbIngressState | CreatingAlbIngress | DeletingAlbIngress
    | CastingExternalDnsState | CreatingExternalDns | DeletingExternalDns | CreatingExternalSecrets
    | DeletingExternalSecrets | CastingIdentityManagerState | CreatingIdentityManager
    | IdentityManagerDeletionMissing | CastingArgoCdState | CreatingArgoCd | ArgoCdDeletionMissing
    | ArgoCdStateIncomplete | ReconcilingNode | HandlingNode

  function Text(m: Message): string {
    match m
    case CastingHostedZoneMetadata => "error casting HostedZone metadata"
    case CreatingHostedZone => "error creating hosted zone"
    case DeletingHostedZone => "error deleting hosted zone"
    case CastingClusterState => "error casting cluster resourceState"
    case CreatingCluster => "error creating cluster"
    case DeletingCluster => "error deleting cluster"
    case CastingAlbIngressState => "error casting ALB Ingress Controller state"
    case CreatingAlbIngress => "error creating ALB Ingress controller"
    case DeletingAlbIngress => "error deleting ALB Ingress controller"
    case CastingExternalDnsState => "error casting External DNS resourceState"
    case CreatingExternalDns => "error creating external DNS"
    case DeletingExternalDns => "error deleting external DNS"
    case CreatingExternalSecrets => "error creating external secrets"
    case DeletingExternalSecrets => "error deleting external secrets"
    case CastingIdentityManagerState => "unable to cast identity manager resourceState"
    case CreatingIdentityManager => "error creating identity manager resource"
    case IdentityManagerDeletionMissing => "deleting identity manager resource is not implemented"
    case CastingArgoCdState => "error casting argocd resource resourceState"
    case CreatingArgoCd => "error creating argocd"
    case ArgoCdDeletionMissing => "deletion of the argocd resource is not implemented"
    case ArgoCdStateIncomplete => "argocd resource state lacks a hosted zone or a repository"
    case ReconcilingNode => "error reconsiling node"
    case HandlingNode => "error handling node"
  }

  /**
   * An error value: a plain message, a message wrapped around a cause
   * (`fmt.Errorf("context: %w", cause)`), or the error a service call returned.
   */
  datatype Error =
    | Failure(message: Message)
    | Wrapped(context: Message, cause: Error)
    | ServiceError(call: ServiceCall)

  datatype ReconciliationResult = ReconciliationResult(requeue: bool)

  /** What one reconciliation returns, together with the service calls it made, in order. */
  datatype Outcome = Outcome(result: Option<ReconciliationResult>, err: Option<Error>, calls: seq<ServiceCall>)
  {
    /** Finished without error and without asking to be requeued. */
    predicate Done() {
      result == Some(ReconciliationResult(false)) && err.None?
    }

    /** Refused before any call: no result and an error carrying `message`. */
    predicate Refused(message: Message) {
      result.None? && err == Some(Failure(message)) && calls == []
    }
  }

  /**
   * The single service call a reconciler makes: when the service fails the
   * reconciliation is requeued and the service's error is wrapped under
   * `context`; otherwise it is done.
   */
  function Attempt(call: ServiceCall, context: Message, fails: ServiceCall -> bool): (o: Outcome)
    ensures o.calls == [call]
    ensures !fails(call) <==> o.Done()
    ensures fails(call) ==> o.result == Some(ReconciliationResult(true)) && o.err == Some(Wrapped(context, ServiceError(call)))
  {
    if fails(call) then Outcome(Some(ReconciliationResult(true)), Some(Wrapped(context, ServiceError(call))), [call])
    else Outcome(Some(ReconciliationResult(false)), None, [call])
  }

  /** No call was needed. */
  const Idle := Outcome(Some(ReconciliationResult(false)), None, [])

  predicate IsFqdn(name: string) {
    |name| > 0 && name[|name| - 1] == '.'
  }

  /** A fully qualified domain name: `name` with a trailing dot unless it already has one. */
  function Fqdn(name: string): (r: string)
    ensures IsFqdn(r)
    ensures |name| <= |r| <= |name| + 1 && r[..|name|] == name
    ensures IsFqdn(name) <==> r == name
  {
    if IsFqdn(name) then name else name + "."
  }
}
