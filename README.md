# okctl `apply cluster`: the reconciliation core

This is a Dafny model of the core of okctl's `apply cluster` command, together with proofs about that model.

The command builds two resource trees:
- the **current** tree, from the services found to exist already;
- the **desired** tree, from the cluster declaration.

It then copies the declaration's metadata onto the desired tree. Next, it relabels the desired tree against the current one: a node whose state the current tree already has becomes Noop. Finally, it dispatches every node to a **reconciler manager**.

The manager works one node at a time:
1. It runs the node's **refresher**, which fills in the node's resource state at run time.
2. It hands the node to the **reconciler** registered for the node's type.
3. That reconciler creates or deletes one resource through a service that may fail.

The walk goes parent before children, children in order, and stops at the first error.

The model also covers three neighbouring pieces:
- applying an application (relabelling then dispatching);
- the decisions of the domain service that creates and deletes the primary hosted zone;
- the dashboard-URL read-modify-write of the kube-prometheus stack state.

Modules, one per file:
- `Api` (`api.dfy`): identities, service calls, errors, the reconciliation outcome, and `Fqdn`.
- `Resources` (`resources.dfy`):
  - node types and states;
  - metadata;
  - resource states;
  - the refresher closures, as a datatype with `Refresh`.
- `ApplyFunctions` (`apply_fn.dfy`): the two callbacks handed to `ApplyFunction`.
- `ResourceTree` (`resource_tree.dfy`): the tree node class.
  - `Equals`, `GetNode`, `SetStateRefresher`, `RefreshState`;
  - the post-order overlay `ApplyFunction`;
  - the marking walk `Apply`.
- `Reconcilers` (`reconcilers.dfy`): the eight reconcilers. Their outcomes are pure functions of the node and the service's failures; the reconciler object only holds its common metadata.
- `Manager` (`manager.dfy`): the reconciler manager.
- `Synchronization` (`synchronize.dfy`): the dispatch walk `HandleNode` and `Synchronize`, each proved against a specification function of the trees.
- `HandlingFacts` (`handling_facts.dfy`): what every dispatch walk does, whatever the reconcilers do.
- `Builders` (`builders.dfy`): `createNode` and the two tree builders, proved to build the declared shapes.
- `DesiredMetadata` (`metadata.dfy`): `ApplyDesiredStateMetadata`, proved against a plan of writes.
- `ApplyApplication` (`apply_application.dfy`): `applyDesiredState` and `SynchronizeApplication`.
- `DomainService` (`domain_service.dfy`): creating and deleting the primary hosted zone, as the sequence of collaborator calls made.
- `KubePromStack` (`kube_prom_stack.dfy`): saving and removing the stack's dashboard URL.

### Duplicated code

The program holds two copies of several parts. The model has one member for each pair.

- **Tree operations.** `pkg/controller/resourcetree/tree.go` and `pkg/controller/synchronize.go` hold the same tree operations.
- **Managers.** `pkg/controller/reconsiler/reconsiler.go` and `pkg/controller/reconsiler.go` hold the same manager.
- **Builders.** `pkg/controller/convert.go` and `pkg/controller/conversion.go` hold the same builders. They differ in one way only: whether `ApplyDesiredStateMetadata` demands a GitHub node. The parameter `githubRequired` selects between them.
- **Refreshers.** `pkg/controller/refreshers.go` and the end of `conversion.go` hold the same refreshers.

### Collaborators

External services are modelled by what they return:
- **Controller services:** a predicate `fails` on service calls says whether a call fails. Each reconciler returns the list of calls it made.
- **Refreshers:** they read an `Observed` value, which holds:
  - the VPC outputs file, or its absence;
  - the CIDR;
  - the hosted zone ID and domain;
  - the primary hosted zone.
- **A whole walk:** a `World` gives both of the above as functions of the calls made so far.
- **The domain service:** it records every call to its api, store, state, ask and report collaborators, in order. The replies come as a value. A `fails` predicate says which call fails first.

## Model

| member | source | states |
|---|---|---|
| Api.Fqdn | pkg/controller/zone.go:35 | the name gets a trailing dot unless it already has one; the result is fully qualified, extends the name by at most one character, and equals it exactly when it was already qualified |
| Api.Attempt | pkg/controller/zone.go:37-49 | one service call is made; it is done exactly when the call succeeds; a failed call requeues the node and wraps the service error under the reconciler's message |
| Resources.Refresh | pkg/controller/refreshers.go:15-97 | the cluster refresher stores the VPC outputs with the CIDR replaced by the fetched one; the ALB refresher stores only the VPC ID; external DNS and the identity manager copy the hosted zone ID and domain; Argo CD stores the hosted zone, no repository, and empty user pool and auth domain; a VPC outputs file that cannot be read is a precondition (the program panics) |
| Resources.Refreshed | pkg/controller/resourcetree/tree.go:71-77 | a node without a refresher keeps its resource state; otherwise it gets the refresher's |
| ApplyFunctions.CurrentStateLabel | pkg/controller/synchronize.go:140-144 | the new state is Noop or the desired state, and Noop exactly when the current node has the desired state or the desired state was Noop |
| ApplyFunctions.DesiredStateLabel | pkg/commands/apply_application.go:41-54 | a container repository becomes Present when the image has a name and Noop otherwise; an application becomes Present; every other node keeps its state |
| ApplyFunctions.ApplyFn.Run | pkg/controller/synchronize.go:131-144 | each callback gives the state its closure gives; `ApplyCurrentState` needs the node found in the target tree (a nil target is a precondition) |
| ApplyFunctions.ApplyFn.Label | pkg/controller/synchronize.go:131-144 | a callback run against the states found by type: a node whose type is missing from the target keeps its state under `ApplyCurrentState` |
| ResourceTree.Node.constructor | pkg/controller/convert.go:144-155 | a node has the given type and state, no children, and no metadata, refresher or resource state |
| ResourceTree.Node.Copy | pkg/controller/synchronize.go:148-149 | the shallow copy has every field of the original and shares its children; the copy replaces the original root in the footprint |
| ResourceTree.Node.Equals | pkg/controller/resourcetree/tree.go:90-96 | false for nil; otherwise true exactly when the types are equal |
| ResourceTree.Node.GetNode | pkg/controller/resourcetree/tree.go:99-113 | the first node of the queried type in pre-order (so the receiver before any descendant), or nil when the tree has none; a result belongs to the tree |
| ResourceTree.Node.GetNodeFrom | pkg/controller/resourcetree/tree.go:104-112 | the children's subtrees are searched in slice order and the first match is returned |
| ResourceTree.Node.PreOrderEnumerates | pkg/controller/resourcetree/tree.go:99-113 | the pre-order that `GetNode` searches lists every node of the tree exactly once |
| ResourceTree.Node.PostOrderEnumerates | pkg/controller/resourcetree/tree.go:117-124 | the post-order (each child's subtree in slice order, then the node), which `ApplyFunction` returns as the order of its calls, lists every node of the tree exactly once |
| ResourceTree.Node.SetStateRefresher | pkg/controller/resourcetree/tree.go:79-87 | only the first node of the given type gets the refresher; every other node keeps its own; nothing changes when no node has the type |
| ResourceTree.Node.RefreshState | pkg/controller/resourcetree/tree.go:71-77 | the resource state becomes what the refresher gives, or stays when there is no refresher |
| ResourceTree.Node.ApplyCurrentState | pkg/controller/synchronize.go:140-144 | the node becomes Noop when its state equals the target's and keeps it otherwise |
| ResourceTree.Node.Invoke | pkg/controller/resourcetree/tree.go:117-124 | one call of the callback on a node, with the node found in the target tree |
| ResourceTree.Node.ApplyFunction | pkg/controller/resourcetree/tree.go:117-124 | every node of the tree, and only those, gets the state the callback gives from its own state and the state of the node of its type in the target tree, both as they were before the walk; the callbacks run in the tree's post-order; no other field changes |
| ResourceTree.Node.ApplyFunctionPostOrder | pkg/controller/synchronize.go:131-138 | the walk (this copy and the one in resourcetree/tree.go alike) visits the children's subtrees in slice order and then the node itself, exactly the post-order of the tree as it was, and relabels each node against the target tree as it was |
| ResourceTree.Node.Apply | pkg/controller/synchronize.go:116-127 | every node becomes Present when the other tree has no node of its type and Noop otherwise |
| ResourceTree.Node.SelfLookup | pkg/controller/resourcetree/tree.go:99-113 | in a tree whose types are unique, looking a node up in its own tree finds that node |
| ResourceTree.Node.SelfOverlayNoop | pkg/controller/synchronize.go:131-144 | overlaying a tree with unique types onto itself with `ApplyCurrentState` relabels every node Noop |
| ResourceTree.FirstOfTypeAppend | pkg/controller/resourcetree/tree.go:104-112 | the first match in two sequences one after the other is the first sequence's, if it has one, and otherwise the second's |
| Reconcilers.NoopOutcome | pkg/controller/noop.go:19-38 | done, with no call, whatever the node's state, metadata or resource state |
| Reconcilers.ZoneOutcome | pkg/controller/zone.go:27-53 | metadata that is not hosted zone metadata is refused with no call; Present creates the zone with the common ID, the domain and its FQDN; Absent deletes by the common ID; Noop is done without a call |
| Reconcilers.ClusterOutcome | pkg/controller/cluster.go:27-53 | a resource state that is not a cluster's is refused with no call; Present creates the cluster with the ID, CIDR, VPC ID and the private and public subnets; Absent deletes by ID; Noop makes no call |
| Reconcilers.AlbIngressOutcome | pkg/controller/albingress.go:24-47 | a wrong resource state is refused with no call; Present creates with the refreshed VPC ID; Absent deletes by ID; Noop makes no call |
| Reconcilers.ExternalDnsOutcome | pkg/controller/externaldns.go:26-51 | a wrong resource state is refused with no call; Present creates with the hosted zone ID and domain and the empty ID; Absent deletes by the common ID; Noop makes no call |
| Reconcilers.ExternalSecretsOutcome | pkg/controller/externalsecrets.go:20-37 | nothing is cast; Present creates and Absent deletes by the common ID; Noop makes no call |
| Reconcilers.IdentityManagerOutcome | pkg/controller/identitymanager.go:33-58 | a wrong resource state is refused with no call; Present creates the identity pool for `auth.` + domain with its FQDN and the hosted zone ID; Absent is refused as not implemented with no call; Noop makes no call |
| Reconcilers.ArgoCdOutcome | pkg/controller/argocd.go:40-75 | a wrong resource state is refused with no call; Present creates from the hosted zone, the repository's organisation, the user pool, the auth domain and the repository; nil zone or repository is a precondition; Absent is refused as not implemented; Noop makes no call |
| Reconcilers.Handler.Run | pkg/controller/reconsiler.go:33-37 | every reconciler's outcome has the common shape: no call for Noop, at most one call and only of its own service, an error exactly when not done, and a failed call requeues the node with the service's error wrapped |
| Reconcilers.ZoneConforms | pkg/controller/zone.go:27-53 | the zone reconciler's outcome has the common shape |
| Reconcilers.ClusterConforms | pkg/controller/cluster.go:27-53 | the cluster reconciler's outcome has the common shape |
| Reconcilers.AlbIngressConforms | pkg/controller/albingress.go:24-47 | the ALB ingress reconciler's outcome has the common shape |
| Reconcilers.ExternalDnsConforms | pkg/controller/externaldns.go:26-51 | the external DNS reconciler's outcome has the common shape |
| Reconcilers.ExternalSecretsConforms | pkg/controller/externalsecrets.go:20-37 | the external secrets reconciler's outcome has the common shape |
| Reconcilers.IdentityManagerConforms | pkg/controller/identitymanager.go:33-58 | the identity manager reconciler's outcome has the common shape |
| Reconcilers.ArgoCdConforms | pkg/controller/argocd.go:40-75 | the Argo CD reconciler's outcome has the common shape |
| Reconcilers.ArgoCdRefreshedCannotCreate | pkg/controller/refreshers.go:88-97 | a Present Argo CD node refreshed by the Argo CD refresher always meets a nil repository when it is created |
| Reconcilers.ArgoCdCheckedOutcome | pkg/controller/argocd.go:54-66 | the corrected reconciler never dereferences a missing hosted zone or repository: it refuses such a state with an error and no call, agrees with `ArgoCdOutcome` on every other input, and its outcome has the common shape |
| Reconcilers.ArgoCdRefreshedRefused | pkg/controller/refreshers.go:88-97 | with the corrected reconciler, a Present node refreshed by the Argo CD refresher is refused with an error instead of crashing |
| Reconcilers.Reconciler.constructor | pkg/controller/zone.go:56-60 | a new reconciler holds no common metadata |
| Reconcilers.Reconciler.SetCommonMetadata | pkg/controller/zone.go:22-24 | the reconciler stores the metadata it is given, except the no-op reconciler (pkg/controller/noop.go:16), which stores nothing |
| Reconcilers.Reconciler.Reconcile | pkg/controller/cluster.go:27-53 | the outcome is its implementation's for the node's state, metadata and resource state and the metadata it holds |
| Manager.ReconcilerManager.constructor | pkg/controller/reconsiler/reconsiler.go:44-51 | a new manager holds the metadata it is given and exactly one reconciler, a no-op one, under the root type |
| Manager.ReconcilerManager.AddReconciler | pkg/controller/reconsiler/reconsiler.go:30-34 | the reconciler gets the manager's common metadata and is stored under the key, replacing any earlier one; every other key keeps its reconciler and handler, unless it holds the same reconciler object, which then carries the new metadata under both keys |
| Manager.ReconcilerManager.Reconcile | pkg/controller/reconsiler/reconsiler.go:37-41 | the node is refreshed before its reconciler runs, which sees the refreshed state; the outcome is that reconciler's, unchanged; an unregistered type is a precondition; the unexported manager in pkg/controller/reconsiler.go:33-37 is the same |
| Synchronization.HandleNode | pkg/controller/synchronize.go:158-172 | dispatching the tree returns the error and makes the calls that the walk specification `Handling` gives: the node, then its children's subtrees in order, stopping at the first error; each node visited holds its refreshed state, every other node keeps its own |
| Synchronization.ReconcileNode | pkg/controller/synchronize.go:159-162 | one node is dispatched as the walk's step says |
| Synchronization.HandleChildren | pkg/controller/synchronize.go:164-169 | the children's subtrees are dispatched in slice order, and the loop returns at the first error, wrapped |
| Synchronization.Synchronize | pkg/controller/synchronize.go:147-155 | the desired root keeps its state and resource state; every other desired node is relabelled in place against the node of its type in the current tree; the error and the calls are those of dispatching the desired tree as if relabelled |
| Synchronization.OverlaidHandling | pkg/controller/synchronize.go:147-155 | relabelling a tree in place and then dispatching it comes to dispatching it with every node relabelled on the way |
| Synchronization.DiffAgrees | pkg/controller/synchronize.go:148-154 | the relabelled shallow copy is dispatched as the relabelled desired tree would be, but for its root |
| HandlingFacts.HandlingVisits | pkg/controller/synchronize.go:158-172 | the walk hands nodes to the reconcilers in pre-order, starting at the root, and stops early only on an error or a crash; calls only extend the log; an error is always some node's error; the nodes refreshed are exactly those visited |
| HandlingFacts.QuietHandling | pkg/controller/synchronize.go:158-172 | a tree none of whose reconcilers makes a call is dispatched without a call |
| HandlingFacts.NoopTreeIsQuiet | pkg/controller/noop.go:30-37 | a tree of Noop nodes makes no reconciler call |
| Builders.CreateNode | pkg/controller/convert.go:144-161 | the node has the type, Present or Absent as asked, and no children; it is appended after the parent's existing children, and attached nowhere without a parent |
| Builders.CreateCurrentStateGraph | pkg/controller/convert.go:52-71 | the tree has the fixed shape: root over zone, GitHub and VPC; VPC over cluster; cluster over external secrets, ALB ingress and external DNS; each state is Present exactly when its service was found, and GitHub is Absent; the copy in pkg/controller/conversion.go:54-74 is the same |
| Builders.CreateDesiredStateGraph | pkg/controller/convert.go:74-98 | one Present zone per DNS zone, then Present GitHub, VPC and cluster, and each integration Present exactly when it is declared; the copy in pkg/controller/conversion.go:77-102 is the same |
| Builders.CurrentTreeTypes | pkg/controller/convert.go:52-71 | the current tree holds exactly one node of each of its eight types |
| Builders.DesiredTreeTypes | pkg/controller/convert.go:74-98 | the desired tree holds a zone node exactly when a DNS zone is declared, and every other type of the current tree |
| Builders.CurrentCoversDesired | pkg/controller/synchronize.go:140-144 | every node of a built desired tree finds a node of its type in a built current tree, so `ApplyCurrentState` never meets a nil target |
| Builders.CurrentGithubAbsent | pkg/controller/convert.go:61 | the current tree's GitHub node is always Absent |
| DesiredMetadata.PlanMetadata | pkg/controller/convert.go:101-142 | only the zone, VPC, GitHub and Argo CD nodes present in the tree receive metadata |
| DesiredMetadata.MetadataFailsIff | pkg/controller/convert.go:101-142 | the run fails exactly when the zone node is missing, or the VPC node is missing, or the GitHub node is missing and required, or the repository name cannot be found; the error is the first of these in that order |
| DesiredMetadata.MetadataOnSuccess | pkg/controller/convert.go:109-139 | on success the zone gets the first DNS zone's parent domain, the VPC the declared CIDR and high availability, GitHub the organisation and repository name, and Argo CD its metadata only when its node exists |
| DesiredMetadata.MetadataOnFailure | pkg/controller/convert.go:104-134 | a failure leaves the nodes written before it written: nothing when the zone node is missing, the zone and VPC (those present) on a later failure |
| DesiredMetadata.GithubRequirementOnlyMattersWhenMissing | pkg/controller/conversion.go:124-135 | the two copies agree whenever the GitHub node exists; without it the older copy skips GitHub and goes on, the newer one fails |
| DesiredMetadata.DesiredTreeMetadata | pkg/controller/convert.go:74-142 | on a built desired tree, metadata fails with a missing zone node when no DNS zone is declared; otherwise it succeeds exactly when the repository name is found, and writes the zone, VPC and GitHub nodes |
| DesiredMetadata.Find | pkg/controller/convert.go:104 | the node found by type is the first of that type in pre-order, nil exactly when the tree has none |
| DesiredMetadata.ApplyDesiredStateMetadata | pkg/controller/convert.go:101-142 | the error is the plan's, and exactly the planned nodes' metadata is written, each on the first node of its type; every other node keeps its metadata; with `githubRequired` false it is the copy in pkg/controller/conversion.go:104-144, which skips a missing GitHub node |
| ApplyApplication.SynchronizeApplication | pkg/commands/apply_application.go:35-39 | every node is relabelled by the application's declaration before any is dispatched; the dispatch's error and calls are those of the relabelled tree, and its nodes hold their refreshed states |
| ApplyApplication.RelabelApplication | pkg/commands/apply_application.go:36 | the overlay of the tree onto itself with `applyDesiredState` ignores the target and relabels every node |
| DomainService.RunPlan | pkg/client/core/service_domain.go:27-116 | running collaborator calls in order and returning at the first error makes a prefix of the calls that ends with the failing one, or all of them |
| DomainService.ChosenZone | pkg/client/core/service_domain.go:30-40 | a zone is chosen exactly when the state lists a primary zone |
| DomainService.FindPrimaryZone | pkg/client/core/service_domain.go:28-34 | the loop that takes the address of its loop variable settles on the zone `ChosenZone` gives, under either loop variable semantics |
| DomainService.DeletePrimaryHostedZone | pkg/client/core/service_domain.go:27-70 | without a primary zone nothing is called and no error is returned; otherwise the calls and the error are those of running the delete plan for the chosen zone |
| DomainService.DeleteZone | pkg/client/core/service_domain.go:42-69 | a managed zone is deleted through the API and then the store; then it is removed from the state and reported; the first error returns |
| DomainService.UnmanagedZoneKeptOutside | pkg/client/core/service_domain.go:44-57 | an unmanaged zone is neither deleted through the API nor removed from the store |
| DomainService.ManagedZoneOrder | pkg/client/core/service_domain.go:44-62 | a managed zone is deleted through the API before the store removal, and the state removal comes before the report |
| DomainService.DeleteReportOrder | pkg/client/core/service_domain.go:64 | the delete report receives the state's report first, then the store's |
| DomainService.DeleteTouchesOnlyChosen | pkg/client/core/service_domain.go:44-62 | every delete and removal is about the chosen zone's domain |
| DomainService.SharedLoopVariableDeletesWrongZone | pkg/client/core/service_domain.go:30-34 | with one loop variable for all iterations, a primary zone followed by another zone makes the search choose the other zone, and the delete removes that zone from the state |
| DomainService.FreshLoopVariableChoosesPrimary | pkg/client/core/service_domain.go:30-34 | with a loop variable per iteration, the zone chosen is primary: the last primary zone listed |
| DomainService.ChosenZoneListed | pkg/client/core/service_domain.go:30-34 | under either semantics the zone chosen is one of the state's zones |
| DomainService.CreatePrimaryHostedZone | pkg/client/core/service_domain.go:72-116 | with a primary zone in the state, only the store lookup of the first one is made and its result returned; otherwise the calls and the error are those of running the create plan, and the saved zone is returned on success |
| DomainService.CreateNewZone | pkg/client/core/service_domain.go:79-115 | ask the domain, create through the API, confirm the name servers, save to the store, save to the state, report; the first error returns nothing |
| DomainService.CreateUsesAskedDomain | pkg/client/core/service_domain.go:80-91 | the API create receives the asked domain and FQDN and the caller's identity |
| DomainService.CreateSavesInOrder | pkg/client/core/service_domain.go:98-113 | the zone is saved to the store just before the state, marked delegated as confirmed, and the report lists the store's report before the state's |
| DomainService.CreateSavesOnlyAfterConfirming | pkg/client/core/service_domain.go:93-105 | nothing is saved unless the name servers were confirmed first |
| KubePromStack.HostnameOf | pkg/client/core/state/kubepromstack_state.go:24-28 | a URL names a hostname exactly when it starts with `https://`, and is then the scheme followed by it |
| KubePromStack.SavedUrlNamesHost | pkg/client/core/state/kubepromstack_state.go:24-28 | the saved URL names the stack's hostname and no other field of the record changes |
| KubePromStack.RemovedUrlNamesNoHost | pkg/client/core/state/kubepromstack_state.go:17-21 | the removed URL names no hostname and no other field changes |
| KubePromStack.SaveRemoveLaws | pkg/client/core/state/kubepromstack_state.go:17-29 | saving twice is saving the last; removing after saving is removing; removing twice is removing once |
| KubePromStack.KubePromStackState.SaveKubePromStack | pkg/client/core/state/kubepromstack_state.go:24-29 | the record read is saved with the URL `https://` + hostname and every other field unchanged; what saving returns is returned |
| KubePromStack.KubePromStackState.RemoveKubePromStack | pkg/client/core/state/kubepromstack_state.go:17-22 | the record read is saved with an empty URL and every other field unchanged, the ID unused; what saving returns is returned |

## Left out

- **Nil dereferences** are preconditions, not behaviour:
  - a nil target in `ApplyCurrentState`;
  - an unregistered node type in the manager;
  - nil common metadata when a reconciler calls its service;
  - a nil hosted zone or repository in Argo CD;
  - an unreadable VPC outputs file in the cluster and ALB refreshers;
  - a zone node in a declaration without DNS zones, where `ApplyDesiredStateMetadata` indexes the first DNS zone.

  The walk specification records a crash as `panics`, and the methods require that it does not happen.
- **`Metadata` and `ResourceState` are tagged unions.** The program holds them as `interface{}`. A failed cast is the explicit refusal the reconciler returns.
- **Refresher and callback closures** are datatypes with what they captured. GitHub's getter and saver are opaque handles.
- **Fetchers, files and services** (the VPC outputs file, the CIDR, zone ID, domain and hosted zone fetchers, and the services) are not modelled as code. They are inputs: the `Observed` and `World` values and the `fails` predicates.
- **`context.Context`** and the request context of the common metadata are not modelled.
- **`NewCreateCurrentStateGraphOpts`** (its filesystem probes) is not modelled. `ExistingServices` holds the probes' results as booleans, and the probe errors are not modelled.
- **`git.GithubRepoFullName`** is an input `RepoLookup`, found or failed. It is consulted only where the program calls it.
- **`dns.Fqdn`** is modelled only as "append a dot unless there is one".
- **Error messages** are constructors. `Text` gives their strings. Wrapping with `%w` is a `Wrapped` error.
- **Service results:** the `ReconsilationResult` that `handleNode` discards is kept in the outcome but not used.
- **The VPC and GitHub reconcilers** (`NewVPCReconsiler` and `NewGithubReconsiler`, registered at cmd/okctl/applycluster.go:152 and 157) are not part of this model: `Kind` has no case for them. A `Synchronize` over the built trees, which hold VPC and GitHub nodes, therefore meets its no-crash precondition only with some other modelled handler under those two keys, and what the real VPC and GitHub reconcilers call is not modelled.
- **The cmd/okctl/applycluster.go wiring is not part of this model.** It decides which refreshers and reconcilers are registered. So are the HTTP client, the AWS SDK calls, the console reports and the application file readers.
- **`ResourceTree.Node.ApplyFunction`** requires, for `ApplyCurrentState`, that every lookup from the receiver's tree lands on a node of another tree or on the node itself. This holds for the program's two uses: `Synchronize`, whose trees are disjoint, and a self-overlay in a tree with unique types. An overlay whose lookups land on other nodes of the tree being relabelled would see states already changed, and is not modelled.
- **`Builders.CreateCurrentStateGraph` and `Builders.CreateDesiredStateGraph`** build in helper methods, and their contracts state the tree's shape as a `Shape` value.
- **`DomainService.DeletePrimaryHostedZone`** states the zone it deletes through `ChosenZone`. `ChosenZone` takes the Go loop variable semantics as a parameter, because which zone the program picks depends on the Go version it is built with.
- **`domain.Default(repository, environment)`** is not modelled. The `AskDomain` call records the repository and environment it is built from, and the reply is an input.
- **`KubePromStack.RepositoryState.SaveMonitoring`** is modelled as "store the record unless saving fails". The repository state's storage is not modelled, and the record's other fields are a map.
- **Three behaviours of the program that the model keeps as written:**
  - **`ApplyCurrentState`** (pkg/controller/synchronize.go:140-144) dereferences its target, so a desired node whose type the current tree lacks crashes. The model requires a target, and `CurrentCoversDesired` shows that the built trees always supply one.
  - **`ApplyDesiredStateMetadata` and GitHub:** the pkg/controller/convert.go copy fails without a GitHub node (lines 121-124), while the pkg/controller/conversion.go copy skips it (lines 124-125).
  - **No DNS zones:** a declaration without DNS zones builds no zone node, so `ApplyDesiredStateMetadata` fails with a missing zone node (`DesiredTreeMetadata`).

## Findings

| source | as written | input that shows it | evidently intended | confidence | as-written member | corrected member |
|---|---|---|---|---|---|---|
| pkg/client/core/service_domain.go:30-34 | `hz = &z` takes the address of the range variable, which Go before 1.22 shares across iterations, so after the loop `hz` points at the last zone listed | the state lists a managed primary zone `primary.example` and then a non-primary zone `other.example`: the delete removes `other.example` from the state | delete the primary zone | high for Go before 1.22, none from 1.22 on; not executed | DomainService.SharedLoopVariableDeletesWrongZone | DomainService.FreshLoopVariableChoosesPrimary |
| pkg/controller/refreshers.go:88-97 | the Argo CD refresher, which cmd/okctl/applycluster.go:135-137 registers on the desired tree, stores a nil repository, and the reconciler reads `resourceState.Repository.Organisation` when it creates Argo CD (pkg/controller/argocd.go:62) | a desired tree holding an Argo CD node that the overlay marks Present, dispatched by a manager with an Argo CD reconciler registered: the refresher leaves its repository nil, and creating it dereferences that nil; the crash needs both that node and that registration, and apply cluster has neither (its builders create no Argo CD node, and cmd/okctl/applycluster.go:151-158 registers no Argo CD reconciler, so such a node would instead crash at the manager's lookup, pkg/controller/reconsiler/reconsiler.go:37-40) | create Argo CD from a filled-in repository, or report the missing repository as an error | high for a manager with an Argo CD reconciler and a tree with an Argo CD node; latent in apply cluster, which has neither; not executed | Reconcilers.ArgoCdRefreshedCannotCreate | Reconcilers.ArgoCdCheckedOutcome |
