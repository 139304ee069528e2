/** The PolicyControl custom resource (spec only; status and type metadata are not modelled). */
module Api {
  import opened Objects

  datatype KcpKubeConfigSecret = KcpKubeConfigSecret(name: string, key: string)

  datatype TLSSecret = TLSSecret(name: string, keyForCert: string, keyForPrivKey: string, keyForCacert: string)

  datatype PolicyControlCluster = PolicyControlCluster(
    namespace: string,
    ingressName: string,
    ingressHost: string,
    ingressPort: int32,
    ingressTLSSecret: TLSSecret,
    kcpKubeConfigSecret: KcpKubeConfigSecret)

  datatype KyvernoInWorkspace = KyvernoInWorkspace(namespaceForAPIResources: string, kyvernoImage: string)

  datatype OperatorGroup = OperatorGroup(name: string)

  datatype Subscription = Subscription(name: string, olmNamespace: string)

  datatype KyvernoCR = KyvernoCR(name: string)

  datatype KyvernoInCluster = KyvernoInCluster(
    installNamespace: string,
    operatorGroup: OperatorGroup,
    subscription: Subscription,
    kyvernoCR: KyvernoCR)

  datatype PolicyControlSpec = PolicyControlSpec(
    workspace: string,
    policyControlCluster: PolicyControlCluster,
    kyvernoInWorkspace: KyvernoInWorkspace,
    kyvernoInCluster: KyvernoInCluster)

  datatype PolicyControl = PolicyControl(namespace: string, name: string, spec: PolicyControlSpec)

  /** Go's zero value of PolicyControl: what `pc` holds when its Get fails. */
  function ZeroPolicyControl(): PolicyControl {
    PolicyControl("", "", PolicyControlSpec(
      "",
      PolicyControlCluster("", "", "", 0, TLSSecret("", "", "", ""), KcpKubeConfigSecret("", "")),
      KyvernoInWorkspace("", ""),
      KyvernoInCluster("", OperatorGroup(""), Subscription("", ""), KyvernoCR(""))))
  }

  /** The helpers of the resources package whose code is not part of this model; nothing is assumed about them. */
  datatype Builders = Builders(
    normalize: PolicyControl -> string,          // normalizeWorkdpaceName
    operatorGroup: PolicyControl -> (Meta, string), // BuildOperatorGroupForKyverno: metadata and opaque spec
    kyvernoCR: PolicyControl -> Unstructured)    // BuildKyvernoCR
}
