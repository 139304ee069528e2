/**
 * The Kubernetes objects the operator reads and writes, reduced to the fields
 * the operator sets or inspects. Every object carries its metadata in `meta`;
 * `Key()` is the address under which the API server stores it.
 */
module Objects {
  import opened Wrappers

  /** Go's `int32`. */
  newtype int32 = x: int | -0x8000_0000 <= x < 0x8000_0000

  /** Object metadata; `owner` is the controller owner reference, if any. */
  datatype Meta = Meta(
    namespace: string,
    name: string,
    labels: map<string, string>,
    annotations: map<string, string>,
    owner: Option<string>)

  /** Metadata with only a namespace and a name. */
  function NamedMeta(namespace: string, name: string): Meta {
    Meta(namespace, name, map[], map[], None)
  }

  /** Storage address of an object: its API resource (plural) and its namespace and name. */
  datatype Key = ObjectKey(resource: string, namespace: string, name: string)

  datatype GroupKind = GroupKind(group: string, kind: string)

  /** What a RESTMapper says about a group and kind: the resource it is served as and its scope. */
  datatype Mapping = Mapping(resource: string, namespaced: bool)

  type Mapper = map<GroupKind, Mapping>

  /** rbac/v1 PolicyRule. */
  datatype PolicyRule = PolicyRule(verbs: seq<string>, resources: seq<string>, apiGroups: seq<string>)

  /**
   * The part of a manifest the operator later reads back through a typed
   * client: a Secret's `data`, an Ingress's `spec`, or nothing it reads.
   */
  datatype Content = OtherContent | SecretContent(data: map<string, string>) | IngressContent(spec: IngressSpec)

  /**
   * A parsed manifest (unstructured.Unstructured). `rules` is the `rules`
   * array when the manifest is a ClusterRole; `content` is what a typed read
   * of it decodes; `body` stands for the rest of its content, which the
   * operator never inspects.
   */
  datatype Unstructured = Unstructured(meta: Meta, group: string, kind: string, rules: seq<PolicyRule>, content: Content, body: string) {
    function Gk(): GroupKind { GroupKind.GroupKind(group, kind) }
  }

  datatype SecretType = Opaque | TLS

  datatype ServicePort = ServicePort(protocol: string, port: int32, targetPort: int)
  datatype ServiceSpec = ServiceSpec(selector: map<string, string>, ports: seq<ServicePort>)

  datatype EnvVar = EnvVar(name: string, value: string)
  datatype ContainerPort = ContainerPort(name: string, protocol: string, containerPort: int32)
  datatype VolumeMount = VolumeMount(name: string, mountPath: string, readOnly: bool)
  datatype Container = Container(
    name: string,
    image: string,
    args: seq<string>,
    env: seq<EnvVar>,
    ports: seq<ContainerPort>,
    volumeMounts: seq<VolumeMount>)
  /** A pod volume backed by a secret. */
  datatype Volume = Volume(name: string, secretName: string)
  /** `replicas` is the value handed to `int32Ptr`, whose own code is not part of this model. */
  datatype DeploymentSpec = DeploymentSpec(
    replicas: int32,
    selector: map<string, string>,
    templateLabels: map<string, string>,
    containers: seq<Container>,
    volumes: seq<Volume>)

  datatype PathType = Prefix | Exact | ImplementationSpecific
  datatype ServiceBackend = ServiceBackend(name: string, port: int32)
  datatype HTTPIngressPath = HTTPIngressPath(path: string, pathType: PathType, backend: ServiceBackend)
  datatype IngressRule = IngressRule(host: string, paths: seq<HTTPIngressPath>)
  datatype IngressTLS = IngressTLS(hosts: seq<string>, secretName: string)
  datatype IngressSpec = IngressSpec(className: string, tls: seq<IngressTLS>, rules: seq<IngressRule>)
  /** networking/v1 Ingress. */
  datatype Ingress = Ingress(meta: Meta, spec: IngressSpec) {
    function AsObj(): Obj { IngressObj(meta, spec) }
  }

  datatype Approval = Automatic | Manual
  datatype SubscriptionSpec = SubscriptionSpec(
    packageName: string,
    installPlanApproval: Approval,
    channel: string,
    catalogSource: string,
    catalogSourceNamespace: string)

  /** An object as the API server stores it. */
  datatype Obj =
    | NamespaceObj(meta: Meta)
    | SecretObj(meta: Meta, secretType: SecretType, data: map<string, string>)
    | ServiceObj(meta: Meta, service: ServiceSpec)
    | DeploymentObj(meta: Meta, deployment: DeploymentSpec)
    | IngressObj(meta: Meta, ingress: IngressSpec)
    | SubscriptionObj(meta: Meta, subscription: SubscriptionSpec)
    | OperatorGroupObj(meta: Meta, body: string)
      /** A manifest written through the dynamic client, or converted to its typed form. */
    | ManifestObj(meta: Meta, resource: string, group: string, kind: string, rules: seq<PolicyRule>, content: Content, body: string)
  {
    function Resource(): string {
      match this
      case NamespaceObj(_) => "namespaces"
      case SecretObj(_, _, _) => "secrets"
      case ServiceObj(_, _) => "services"
      case DeploymentObj(_, _) => "deployments"
      case IngressObj(_, _) => "ingresses"
      case SubscriptionObj(_, _) => "subscriptions"
      case OperatorGroupObj(_, _) => "operatorgroups"
      case ManifestObj(_, r, _, _, _, _, _) => r
    }

    function Key(): Key { ObjectKey(Resource(), meta.namespace, meta.name) }
  }

  /** Every object is stored under its own key, as the API server keeps it. */
  ghost predicate WellKeyed(m: map<Key, Obj>) {
    forall k :: k in m ==> m[k].Key() == k
  }

  /** The object a manifest becomes once it is served as `resource`. */
  function FromManifest(resource: string, u: Unstructured): (o: Obj)
    ensures o.Key() == ObjectKey(resource, u.meta.namespace, u.meta.name)
  {
    ManifestObj(u.meta, resource, u.group, u.kind, u.rules, u.content, u.body)
  }
}
