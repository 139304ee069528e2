# policy-control-operator, modelled in Dafny

The operator reconciles `PolicyControl` resources. One pass does four things:

- reads the PolicyControl;
- copies the kcp kubeconfig it names into a temporary file;
- runs three stages in order:
  - **syncPCO** upserts the kcp syncer manifests into the cluster the operator runs in;
  - **installKyvernoOnEdge** creates the Kyverno operator's namespace, OperatorGroup and Subscription in the kcp workspace, then upserts the Kyverno custom resource;
  - **installKyvernoOnWorkspace** installs the workspace-level Kyverno manifests and TLS secrets in the workspace. In the operator's cluster it creates the ingress TLS secret, creates or merges the tenant's route into the shared `kyverno-ingress`, and upserts the tenant's kubeconfig secret, service and deployment;
- removes the temporary file.

The model has the following parts.

- **Stores.** Each API server is a `Store.Cluster`: a map from (resource, namespace, name) to objects, a log of the create and update requests, and a fixed set of keys on which Get, Create or Update fail. A create also fails on a taken key, and an update on a free one. `local` is the operator's cluster and `remote` is the kcp workspace.
- **Upsert primitives and stages.** These are methods on those classes. Each is proved equal to a specification function on the stores' values: `Helper`, `ProcessPco`, `ProcessEdge`, `ProcessWorkspace` and `Controller.Reconcile`.
- **Resource builders.** These are pure functions, and lemmas tie their names, labels, ports and secret keys together: `SecretResource`, `ServiceResource`, `DeployResource`, `SubscriptionResource`.
- **Shared-ingress merge.** `IngressResource.AddIngressRuleForKyverno` keeps the source's two scanning loops. It is proved equal to `Merge`, and `Merge`'s properties are proved as lemmas.
- **Re-run theorem.** On stores where no call fails, every upsert acts as one of two operations: `Put` (replace) or `Ensure` (create when absent). A sequence of these is idempotent (`Converge`). Each stage is proved to perform a fixed plan of such operations. Together these give `Controller.ReconcileRerunIsNoOp`: a pass repeated on what a successful pass left succeeds, changes no stored object, and sends no create request.
- **Outside the stores.** Everything the pass learns from outside the two stores is an input of the pass (`Bridge.Env`):
  - the kcp command bridge;
  - discovery and RESTMapper;
  - the manifest files and YAML decoding;
  - the unstructured-to-typed converter;
  - whether the temporary file could be created and written;
  - the resource helpers whose code is not shown: `normalizeWorkdpaceName`, `BuildOperatorGroupForKyverno` and `BuildKyvernoCR`.

## Model

| member | source | states |
|---|---|---|
| SecretResource.BuildSecretForKyverno | resources/secret.go:26-37 | an Opaque secret at (secrets, cluster namespace, normalized workspace) whose data is exactly {target-kubeconfig.yaml: the kubeconfig} |
| SecretResource.BuildTLSCASecretForKyverno | resources/secret.go:39-49 | an Opaque secret with the fixed CA name in the namespace for API resources, data exactly {rootCA.crt: the CA} |
| SecretResource.BuildTLSKeyCertSecretForKyverno | resources/secret.go:51-61 | a TLS secret with the fixed pair name in the namespace for API resources, keys exactly tls.key and tls.crt holding the key and certificate |
| SecretResource.BuildTLSKeyCertSecretForIngress | resources/secret.go:63-73 | a TLS secret named kyverno-ingress in the cluster namespace, keys exactly tls.key and tls.crt |
| SecretResource.SecretKeysDistinct | resources/secret.go:26-73 | the CA and pair secrets never share a key; the kubeconfig secret and the ingress TLS secret share one exactly when the workspace normalizes to "kyverno-ingress" |
| ServiceResource.BuildServiceForKyverno | resources/service.go:27-44 | the service at (services, cluster namespace, normalized workspace) selects the tenant labels and has exactly one TCP port, the ingress port, forwarded to 9443 |
| ServiceResource.ServiceSelectsKyvernoPods | resources/service.go:27-44 | the service shares the deployment's name and namespace, its selector is the deployment's pod-template labels, and its target port is the container's port |
| ServiceResource.IngressRoutesToService | resources/ingress.go:103-119 | every tenant path of the ingress is backed by the tenant's service, on the port that service exposes, and the ingress lives in the service's namespace |
| ServiceResource.TenantObjectsDistinct | resources/service.go:27-44 | tenants with distinct normalized names never share a deployment, a service or a kubeconfig secret |
| SubscriptionResource.BuildSubscriptionForKyverno | resources/subscription.go:25-41 | named by the spec's subscription in the install namespace; package and catalog kyverno-operator, channel alpha, automatic approval, catalog namespace the OLM namespace |
| DeployResource.BuildDeploymentForKyverno | resources/deploy.go:29-95 | one replica at (deployments, cluster namespace, normalized workspace); object labels, selector and pod labels are all {app: kyverno-controller, workspace: norm}; exactly one container, `kyverno`, running the spec's Kyverno image with KYVERNO_SVC=kyverno-svc-remote and the one port http/TCP/9443 |
| DeployResource.DeploymentMountsKubeConfigSecret | resources/deploy.go:58-89 | the one container mounts a volume that is the tenant's kubeconfig secret, in the same namespace, and `--kubeconfig` names that secret's key under the mount path |
| DeployResource.AdvertisedUrlShape | resources/deploy.go:31-64 | the container's `--serverIP` argument is host:port/norm, and two such URLs with the same host and name are equal exactly when the ports are |
| Format.FormatIntInjective | resources/deploy.go:31 | the `%d` rendering of an integer is injective, so the port can be read back from the URL |
| Format.ParseDigitsOfDigits | resources/deploy.go:31 | reading the decimal digits back gives the number |
| IngressResource.GetPathSeparatesTenants | resources/ingress.go:121-123 | two tenants' paths are equal exactly when their normalized names are |
| IngressResource.BuildIngressShape | resources/ingress.go:28-58 | the fresh ingress is kyverno-ingress in the cluster namespace, class nginx, with exactly the HTTPS backend-protocol and `/$2` rewrite-target annotations, one TLS entry for [host] naming kyverno-ingress, and exactly one rule, for the host, whose only path is the tenant's built path |
| IngressResource.BuiltPathRoutesToTenant | resources/ingress.go:103-119 | a built path is a Prefix path to the tenant's service on the ingress port |
| IngressResource.LastHostIndex | resources/ingress.go:67-78 | the last rule for the host, or -1 when none is: every later rule is for another host |
| IngressResource.AddIngressRuleForKyverno | resources/ingress.go:60-101 | the two scans, with idxPath carried over from the first, return exactly `Merge`: an error without a host rule, the input when some host rule routes the path, otherwise one append to the last host rule |
| IngressResource.MergeFailsIffNoHost | resources/ingress.go:69-83 | the merge fails exactly when no rule is for the host, and then with NoRouteTarget |
| IngressResource.MergeKeepsExistingRoute | resources/ingress.go:69-95 | when any rule for the host, even an earlier one than the last, already routes the path, the ingress comes back unchanged |
| IngressResource.MergeAppendsOnePath | resources/ingress.go:86-100 | otherwise exactly the tenant's path is appended to the last host rule; every other rule, earlier paths, metadata, class and TLS are unchanged |
| IngressResource.MergeRoutesTenant | resources/ingress.go:60-101 | after a successful merge a rule is for the host and the tenant's path is routed |
| IngressResource.MergeIdempotent | resources/ingress.go:86-98 | merging into a successful merge's result gives that result again |
| IngressResource.MergeIntoFreshIngress | resources/ingress.go:28-101 | merging a tenant into its own fresh ingress is a no-op |
| IngressResource.MergeTwice | resources/ingress.go:97-98 | two tenants merged one after the other on the same host: the last host rule gains the first one's addition, then the second one's |
| IngressResource.MergeTwiceRoutesBoth | resources/ingress.go:97-98 | after both merges both tenants' paths are routed |
| IngressResource.MergeOrderIrrelevant | resources/ingress.go:97-98 | two tenants with distinct paths merged in either order both succeed, route both paths, and the results differ only in the order of paths |
| IngressResource.MergeKeepsRoutesUnique | resources/ingress.go:86-98 | when no path is routed twice on the host before a merge, none is after it |
| Helper.WithOwner | controllers/policycontrol_helper.go:46-52 | setting the controller reference keeps the object's key and makes the PolicyControl its owner |
| Helper.CreateOrUpdate | controllers/policycontrol_helper.go:139-159 | Get, then Create the object on any Get error or Update with what the Get read, as `CreateOrUpdateStep` |
| Helper.CreateOrUpdateTypedResource | controllers/policycontrol_helper.go:36-70 | the optional owner step, then the same Get-then-write, as `TypedUpsert` |
| Helper.CreateOrUpdateTypedResourceByUnstructured | controllers/policycontrol_helper.go:72-89 | conversion first, then the typed upsert, as `TypedUpsertByUnstructured` |
| Helper.CreateOrUpdateUnstructuredResource | controllers/policycontrol_helper.go:91-118 | Get, then Create or Update the desired object, a failed Update forgiven when ignore is set, as `UnstructuredUpsert` |
| Helper.CreateOrUpdateUnstructuredResourceFromFile | controllers/policycontrol_helper.go:120-137 | load, decode and map the file, then the dynamic upsert, as `FileUpsert` |
| Helper.EnsureCreated | controllers/policycontrol_process_edge.go:56-63 | the stages' create-if-absent: Create only when the Get fails, as `CreateIfAbsent` |
| Helper.CreateOrUpdateActsAsEnsure | controllers/policycontrol_helper.go:144-158 | exactly one write, Create exactly when the Get failed; success leaves the store as `Ensure` (the update writes back what was read); failure changes nothing and reports that write |
| Helper.TypedUpsertOwnerFirst | controllers/policycontrol_helper.go:46-54 | a failed owner step returns OwnershipError before any store access; otherwise createOrUpdate follows, with the owner set exactly when asked |
| Helper.ConversionFailsFirst | controllers/policycontrol_helper.go:82-86 | a failed conversion returns before any store access |
| Helper.UnstructuredUpsertActsAsPut | controllers/policycontrol_helper.go:99-117 | exactly one write, of the desired object; a failed Create is always an error; a failed Update changes nothing and is an error exactly when ignore is unset |
| Helper.FileUpsertLoadsFirst | controllers/utils.go:114-129 | an unreadable, undecodable or unmapped manifest returns its error before any store access |
| Helper.CreateIfAbsentActsAsEnsure | controllers/policycontrol_process_edge.go:56-63 | at most one request, a create, issued exactly when the Get fails; success acts as `Ensure`, failure changes nothing |
| Helper.CreateIfAbsentOnlyCreates | controllers/policycontrol_process_workspace.go:93-100 | create-if-absent never issues an update |
| Helper.TypedUpsertTwice | controllers/policycontrol_helper.go:144-157 | two typed upserts of one key on a store without it: one create, then one update, leaving the first object |
| Helper.UnstructuredUpsertTwice | controllers/policycontrol_helper.go:99-113 | two dynamic upserts of one key on a store without it: one create, then one update, leaving the second desired object |
| Helper.CreateOrUpdateNoFaults | controllers/policycontrol_helper.go:144-158 | without faults createOrUpdate succeeds as `Ensure`, updating exactly when the key is stored |
| Helper.UnstructuredUpsertNoFaults | controllers/policycontrol_helper.go:99-117 | without faults the dynamic upsert succeeds as `Put`, updating exactly when the key is stored |
| Helper.CreateIfAbsentNoFaults | controllers/policycontrol_process_edge.go:56-63 | without faults create-if-absent succeeds as `Ensure`, creating exactly when the key is free |
| ProcessPco.ContainsIff | controllers/policycontrol_process_pco.go:109 | `strings.Contains` holds exactly when the marker occurs at some position |
| ProcessPco.Split | controllers/policycontrol_process_pco.go:65 | `strings.Split` on "---" gives at least one piece, the first a prefix of the text |
| ProcessPco.JoinSplit | controllers/policycontrol_process_pco.go:65 | joining the pieces with "---" restores the syncer output |
| ProcessPco.SplitPiecesHaveNoSep | controllers/policycontrol_process_pco.go:65 | no piece contains "---" |
| ProcessPco.SplitFirstCutLeftmost | controllers/policycontrol_process_pco.go:65 | no occurrence of "---" starts inside the first piece, and a single piece is the whole text |
| ProcessPco.SplitCutsAtFirstSep | controllers/policycontrol_process_pco.go:65 | with several pieces, the first ends where an occurrence of "---" starts and the rest are the split of the text after it; with the previous row this fixes `strings.Split` exactly |
| ProcessPco.DefaultNamespace | controllers/policycontrol_process_pco.go:97-99 | a namespaced object without a namespace gets the request's; any other keeps its own; nothing else changes |
| ProcessPco.ResourceUpsertFailsEarly | controllers/policycontrol_process_pco.go:88-95 | a mapping or conversion failure returns before any store access |
| ProcessPco.ResourcePlanTable | controllers/policycontrol_process_pco.go:101-139 | a mapped manifest becomes one write under its mapped resource with the namespace defaulted and no owner; it keeps what is stored exactly for the six typed resources; only a kcp-syncer ClusterRole gains rules, exactly the two Kyverno rules after its own |
| ProcessPco.ResourceUpsertFollowsPlan | controllers/policycontrol_process_pco.go:78-140 | without faults createOrUpdateResource returns its planned error untouched or performs its planned write with one request |
| ProcessPco.CreateOrUpdateResource | controllers/policycontrol_process_pco.go:78-140 | the method does what `ResourceUpsert` says |
| ProcessPco.SyncPCO | controllers/policycontrol_process_pco.go:42-76 | the segment loop does what `SyncStage` says: a syncer failure first, skipped undecodable segments, the first failed upsert ending the loop |
| ProcessPco.SyncPlan | controllers/policycontrol_process_pco.go:65-74 | every planned write sits at its object's key |
| ProcessPco.SyncSegmentsFollowPlan | controllers/policycontrol_process_pco.go:65-75 | without faults the loop leaves the store as its plan applied in order, with the plan's outcome, and sends no create when every key is stored |
| ProcessPco.SyncStageFollowsPlan | controllers/policycontrol_process_pco.go:51-75 | the same for the whole stage, with a syncer failure writing nothing |
| ProcessPco.SyncPlanShape | controllers/policycontrol_process_pco.go:101-139 | the loop writes manifests only, and keeps what is stored only for the typed resources |
| ProcessPco.SyncStagePlanShape | controllers/policycontrol_process_pco.go:51-75 | the same for the whole stage |
| ProcessEdge.InstallKyvernoOnEdge | controllers/policycontrol_process_edge.go:36-110 | the method does what `EdgeStage` says: namespace, OperatorGroup, Subscription created if absent in that order, then the mapped Kyverno resource upserted with update failures ignored |
| ProcessEdge.EdgePlan | controllers/policycontrol_process_edge.go:44-107 | every planned write sits at its object's key |
| ProcessEdge.EdgeConfigFailsFirst | controllers/policycontrol_process_edge.go:44-47 | a failing workspace configuration is returned before anything is written |
| ProcessEdge.EdgeUpdatesOnlyKyvernoCR | controllers/policycontrol_process_edge.go:56-103 | every update the stage sends is of the Kyverno resource; with the kind unmapped it sends none |
| ProcessEdge.EdgeIgnoresKyvernoCRUpdateFailure | controllers/policycontrol_process_edge.go:103 | with the prerequisites present and the kind mapped, a rejected update of the Kyverno resource still ends the stage successfully |
| ProcessEdge.PrerequisitesNoFaults | controllers/policycontrol_process_edge.go:54-93 | without faults the three prerequisites succeed as three `Ensure` operations |
| ProcessEdge.EdgeFollowsPlan | controllers/policycontrol_process_edge.go:44-109 | without faults the stage performs its plan with its outcome, and sends no create when every key is stored |
| ProcessEdge.EdgeWritesCR | controllers/policycontrol_process_edge.go:96-107 | the mapped case: after the prerequisites the Kyverno resource is put and the stage passes |
| ProcessEdge.EdgeRerunIsNoOp | controllers/policycontrol_process_edge.go:36-110 | re-running a successful edge stage on its result passes, sends no create and changes nothing |
| ProcessEdge.SubscriptionInInstallNamespace | resources/subscription.go:30 | the Subscription lives in the namespace the stage creates first |
| ProcessWorkspace.InstallManifests | controllers/policycontrol_process_workspace.go:66-80 | the loop does what `ManifestLoop` says over the globbed files and then the API-bindings manifest |
| ProcessWorkspace.EnsureIngressRoute | controllers/policycontrol_process_workspace.go:124-139 | the method does what `IngressStep` says: create a fresh ingress when none reads, else update with the merge, a failed merge panicking |
| ProcessWorkspace.InstallKyvernoOnWorkspace | controllers/policycontrol_process_workspace.go:37-171 | the method does what `WorkspaceStage` says on both stores |
| ProcessWorkspace.WorkspaceConfigFailsFirst | controllers/policycontrol_process_workspace.go:45-48 | a failing workspace configuration is returned before either store is touched |
| ProcessWorkspace.ManifestLoopAppend | controllers/policycontrol_process_workspace.go:69-80 | the loop over two lists is the loop over the first, then, unless it failed, over the second |
| ProcessWorkspace.ManifestLoopStopsAtFirstFailure | controllers/policycontrol_process_workspace.go:69-74 | when the files before one all succeed and it fails, the loop's result is that failure and no later file is touched |
| ProcessWorkspace.BindingsAfterManifests | controllers/policycontrol_process_workspace.go:68-80 | the API-bindings manifest is upserted last, only when every globbed file succeeded |
| ProcessWorkspace.TLSReadFailureAborts | controllers/policycontrol_process_workspace.go:83-87 | an unreadable TLS secret fails the stage after the manifests, with the cluster untouched and no TLS secret written |
| ProcessWorkspace.TLSCopyOnlyCreates | controllers/policycontrol_process_workspace.go:92-122 | the TLS copy only ever creates, on both stores; on success the TLS source was stored, the workspace gains the pair and CA secrets where absent and the cluster the ingress secret where absent, all built from that source |
| ProcessWorkspace.IngressCreatedWhenUnreadable | controllers/policycontrol_process_workspace.go:126-132 | an ingress that cannot be read is created fresh |
| ProcessWorkspace.IngressAlwaysUpdated | controllers/policycontrol_process_workspace.go:133-139 | a readable ingress is always updated with the merge's result, also when the path was already routed and the update writes it back unchanged |
| ProcessWorkspace.SyncedIngressIsMerged | controllers/policycontrol_process_workspace.go:124-139 | an ingress the syncer wrote through the dynamic client is read by the typed Get: no create is sent over it, and a route that merges into its spec is written by an accepted update that replaces it with the merge, routing the tenant |
| ProcessWorkspace.TLSSourceDataCopied | controllers/policycontrol_process_workspace.go:83-122 | the TLS source's data, whether a typed secret or one the syncer wrote as a manifest, supplies the key, certificate and CA of the pair, CA and ingress secrets |
| ProcessWorkspace.IngressWithoutHostPanics | controllers/policycontrol_process_workspace.go:134-135 | a readable ingress without a rule for the host makes the discarded merge error a nil update, which panics before any write |
| ProcessWorkspace.UpsertInOrderRequests | controllers/policycontrol_process_workspace.go:148-168 | three upserts at distinct keys send their writes once each, in order, up to the first failure, all three on success |
| ProcessWorkspace.UpsertInOrderError | controllers/policycontrol_process_workspace.go:148-168 | a failure of the three upserts is that of the last write sent |
| ProcessWorkspace.TenantKeysDistinct | controllers/policycontrol_process_workspace.go:148-164 | the kubeconfig secret, service and deployment live at three different keys |
| ProcessWorkspace.TenantObjectsInOrder | controllers/policycontrol_process_workspace.go:148-168 | kubeconfig secret, service and deployment are written once each in that order; the requests are a prefix of the three writes, all three on success; a failure is that of the last write sent |
| ProcessWorkspace.UpsertInOrderEffect | controllers/policycontrol_process_workspace.go:148-168 | without faults the three upserts act as three `Ensure` operations |
| ProcessWorkspace.FilePlan | controllers/policycontrol_process_workspace.go:69-80 | every planned manifest write sits at its object's key |
| ProcessWorkspace.ManifestLoopFollowsPlan | controllers/policycontrol_process_workspace.go:69-80 | without faults the loop puts each loaded manifest in order up to the first file that cannot be loaded, and sends no create when every key is stored |
| ProcessWorkspace.RemoteSetupFollowsPlan | controllers/policycontrol_process_workspace.go:55-80 | without faults the namespace and manifests are the planned operations |
| ProcessWorkspace.TLSCopyEffect | controllers/policycontrol_process_workspace.go:83-122 | without faults and with the TLS secret stored, the copy creates the three secrets where absent |
| ProcessWorkspace.IngressStepEffect | controllers/policycontrol_process_workspace.go:124-139 | without faults and with a mergeable ingress, the step leaves the computed ingress at its key |
| ProcessWorkspace.TenantObjectsEffect | controllers/policycontrol_process_workspace.go:148-168 | without faults the tenant objects act as their three `Ensure` operations |
| ProcessWorkspace.IngressAfterFrame | controllers/policycontrol_process_workspace.go:126-134 | the ingress the stage computes depends only on what is stored at the ingress's key |
| ProcessWorkspace.LocalObjectsEffect | controllers/policycontrol_process_workspace.go:124-168 | without faults the cluster side after the TLS copy performs the ingress write and the tenant operations |
| ProcessWorkspace.WorkspaceRemoteEffect | controllers/policycontrol_process_workspace.go:55-111 | without faults the workspace side of a ready stage is the namespace, the manifests and the two TLS secrets |
| ProcessWorkspace.WorkspaceEffect | controllers/policycontrol_process_workspace.go:37-171 | without faults a ready stage succeeds and performs its operations on both stores, sending no create to a workspace that already holds every key |
| ProcessWorkspace.WorkspaceLocalEffect | controllers/policycontrol_process_workspace.go:113-168 | the cluster half of WorkspaceEffect |
| ProcessWorkspace.WorkspaceLocalNoCreates | controllers/policycontrol_process_workspace.go:113-168 | a ready stage sends no create to a cluster that already holds every key it writes |
| ProcessWorkspace.WorkspacePassIsReady | controllers/policycontrol_process_workspace.go:37-171 | a stage that succeeds without faults had its configuration, manifests, kubeconfig, TLS secret and a mergeable ingress |
| ProcessWorkspace.IngressStepPassIsMergeable | controllers/policycontrol_process_workspace.go:126-139 | a successful ingress step found no ingress, or one it could merge into |
| ProcessWorkspace.IngressAfterStable | resources/ingress.go:86-98 | the ingress a stage leaves is left as it is by the next stage's merge |
| ProcessWorkspace.LocalOpsKeepTLSSource | controllers/policycontrol_process_workspace.go:113-168 | the stage's writes to the cluster never replace the TLS secret it reads |
| ProcessWorkspace.LocalOpsStable | controllers/policycontrol_process_workspace.go:83-168 | after the stage's cluster operations, the same TLS secret and ingress are read again, so running them again is the same operations on a still-ready cluster |
| ProcessWorkspace.WorkspaceRerunIsNoOp | controllers/policycontrol_process_workspace.go:37-171 | re-running a successful stage on its result passes, sends no create and leaves both stores as they were |
| Controller.Reconcile | controllers/policycontrol_controller.go:74-148 | the method does what `ReconcileSpec` says on both stores, returning the pass's error (a nil-ingress panic rendered as the error `NilIngressPanic`) and what became of the temporary file |
| Controller.NotFoundIsNoOp | controllers/policycontrol_controller.go:79-83 | a PolicyControl that is not found ends the pass successfully with nothing touched and no temporary file |
| Controller.LookupFailureContinues | controllers/policycontrol_controller.go:79-91 | any other lookup error is not returned: the pass reads the secret the zero PolicyControl names and runs the stages for it |
| Controller.SecretFailureComesFirst | controllers/policycontrol_controller.go:87-91 | an unreadable kcp secret returns its error before any stage runs or any file is made |
| Controller.TempFileLifecycle | controllers/policycontrol_controller.go:92-106 | the file is removed exactly when it was created and written, left behind exactly when only the write failed (with that error), and no stage runs without the file |
| Controller.StagesInOrder | controllers/policycontrol_controller.go:117-145 | a failing sync leaves the workspace untouched, a failing edge stage leaves the cluster as sync left it, each returning its own error, and the pass succeeds exactly when all three stages do |
| Controller.StagesFromPlan | controllers/policycontrol_controller.go:117-145 | without faults, with both plans passing and the synced cluster ready, the three stages perform their operations and send no create when every key is stored |
| Controller.StagesPassIsPlanned | controllers/policycontrol_controller.go:117-145 | a successful pass without faults had both plans pass and the synced cluster ready for the workspace stage |
| Controller.ResyncIngress | controllers/policycontrol_process_pco.go:137-138 | the ingress a second sync leaves yields the same merge as the first: a syncer manifest at the ingress key is only ever put, so it is put back as it was; otherwise the merged ingress stays and merges into itself |
| Controller.ResyncKeepsWorkspaceInputs | controllers/policycontrol_controller.go:117-145 | a second sync after the workspace stage keeps the TLS secret that stage reads and leaves an ingress from which the stage computes the same merge, also when the syncer output contains the ingress |
| Controller.ResyncReady | controllers/policycontrol_controller.go:117-145 | after that second sync the cluster is still ready, with the same cluster operations, every key of which is stored |
| Controller.StagesRerunIsNoOp | controllers/policycontrol_controller.go:117-145 | re-running the three stages on what a successful run left succeeds, leaves both stores' objects as they were, and sends no create to either |
| Controller.SecretStillReadable | controllers/policycontrol_controller.go:87-91 | after a successful pass the kcp secret is still readable |
| Controller.ReconcileRerunIsNoOp | controllers/policycontrol_controller.go:74-148 | reconciling again after a successful pass, with the same outside answers, succeeds, changes no stored object and sends no create to either store |

## Left out

- Shell-outs, kubeconfig loading, discovery, the RESTMapper, yaml.Unmarshal and the unstructured converter (controllers/utils.go) are inputs of the pass in `Bridge.Env`, and nothing is assumed about them. `switchWorkspace`'s swallowed failure is part of the `getWorkspaceConfigs` answer.
- Go's RESTMapper distinguishes versions; the model maps on group and kind only, as `getMapping` asks.
- `normalizeWorkdpaceName`, `BuildOperatorGroupForKyverno` and `BuildKyvernoCR` are uninterpreted functions in `Api.Builders`. They are not assumed to be injective, lower-case or DNS-safe.
- `int32Ptr` is not shown. The deployment records the replica count it is given.
- The constructors of Kubernetes clients are assumed to succeed. The panics at controllers/policycontrol_process_edge.go:51-53 and controllers/policycontrol_process_workspace.go:51-53 are not modelled.
- The discovery errors ignored at controllers/policycontrol_process_pco.go:56-62 are not modelled. The local mapper is simply an input.
- Logging and the always-empty `ctrl.Result` are not modelled. `SetupWithManager` and the RBAC markers are out of scope.
- `SetControllerReference`'s failure is an input flag. No stage sets an owner, so it never arises in a pass.
- Concurrency, including the read-modify-write race on the shared ingress between concurrent passes, is not modelled. A single sequential pass is modelled.
- The temporary file's name, permissions and contents are not modelled. The kcp secret's contents do not feed the answers in `Bridge.Env`.
- Close and remove errors in the deferred cleanup are only logged by the source. The model records the file as removed.
- The PolicyControl lookup is an input (`PcLookup`). The lookup error is reduced to found, not found, or failed.
- Secret `StringData` is modelled as the stored `Data`.
- A manifest keeps only the part of its content the operator reads back through a typed client (`Objects.Content`): a Secret's data and an Ingress's spec. The rest is an uninterpreted body. A synced ingress manifest without a spec decodes as an empty ingress.
- `Bridge.SecretValue` reads a key the secret's data lacks as "", as a Go map lookup does. An object of another kind can sit at a secret key or at the ingress key only if the store is not well-keyed. The model then reads no data there, and no ingress.
- ProcessWorkspace.EnsureIngressRoute: `r.Update` on the nil ingress left by a failed merge (controllers/policycontrol_process_workspace.go:134-135) panics in the source, and controller-runtime re-raises the panic, so the process stops. The model returns the error `NilIngressPanic` with nothing written instead, and does not model the crash or the restart.
- ProcessWorkspace.IngressWithoutHostPanics: states that panic as the stage's error `NilIngressPanic`, for the same reason.
- Controller.Reconcile: on that panic the deferred removal of the temporary file runs while the stack unwinds, so the model records the file as removed. It returns `NilIngressPanic` as the pass's error, which the source never returns.
- `IngressResource.AddIngressRuleForKyverno` works on the ingress as a value. It returns the updated ingress rather than appending into the caller's ingress in place, so aliasing is not modelled. A rule with a nil `HTTP` (a panic in the source) cannot be represented.
- The workspace stage writes the namespace, the manifests and the pair and CA secrets to the kcp workspace. It writes the TLS source read, the ingress secret, the ingress and the tenant objects to the operator's cluster. This split follows the code's clients, not the prose description of the stage.
- `Controller.ReconcileRerunIsNoOp` and the other re-run lemmas assume stores on which no call fails. Every object must also sit at its own key, as the API server keeps them. They also assume the answers from outside the stores are the same on both passes. The syncer output may itself contain the shared ingress or the TLS source secret.
