/**
 * The secrets the operator writes. The source fills `StringData`; the API
 * server stores it as `Data`, which is what `data` stands for here.
 */
module SecretResource {
  import opened Objects
  import opened Api

  const KubeConfigKey := "target-kubeconfig.yaml"
  const CASecretName := "kyverno-svc-remote.kyverno.svc.kyverno-tls-ca"
  const CAKey := "rootCA.crt"
  const PairSecretName := "kyverno-svc-remote.kyverno.svc.kyverno-tls-pair"
  const IngressSecretName := "kyverno-ingress"
  const TLSKeyKey := "tls.key"
  const TLSCertKey := "tls.crt"

  function ClusterNamespace(cr: PolicyControl): string { cr.spec.policyControlCluster.namespace }
  function APINamespace(cr: PolicyControl): string { cr.spec.kyvernoInWorkspace.namespaceForAPIResources }

  /** BuildSecretForKyverno: the tenant's kcp kubeconfig, in the cluster namespace under the normalized name. */
  function BuildSecretForKyverno(cr: PolicyControl, b: Builders, kcpKubeConfig: string): (o: Obj)
    ensures o.SecretObj? && o.Key() == ObjectKey("secrets", ClusterNamespace(cr), b.normalize(cr))
    ensures o.secretType == Opaque && o.data.Keys == {KubeConfigKey} && o.data[KubeConfigKey] == kcpKubeConfig
  {
    SecretObj(NamedMeta(ClusterNamespace(cr), b.normalize(cr)), Opaque, map[KubeConfigKey := kcpKubeConfig])
  }

  /** BuildTLSCASecretForKyverno: the CA certificate, in the workspace namespace for API resources. */
  function BuildTLSCASecretForKyverno(cr: PolicyControl, tlsCACrt: string): (o: Obj)
    ensures o.SecretObj? && o.Key() == ObjectKey("secrets", APINamespace(cr), CASecretName)
    ensures o.secretType == Opaque && o.data.Keys == {CAKey} && o.data[CAKey] == tlsCACrt
  {
    SecretObj(NamedMeta(APINamespace(cr), CASecretName), Opaque, map[CAKey := tlsCACrt])
  }

  /** BuildTLSKeyCertSecretForKyverno: the key pair, in the workspace namespace for API resources. */
  function BuildTLSKeyCertSecretForKyverno(cr: PolicyControl, tlsKey: string, tlsCrt: string): (o: Obj)
    ensures o.SecretObj? && o.Key() == ObjectKey("secrets", APINamespace(cr), PairSecretName)
    ensures o.secretType == TLS && o.data.Keys == {TLSKeyKey, TLSCertKey}
    ensures o.data[TLSKeyKey] == tlsKey && o.data[TLSCertKey] == tlsCrt
  {
    SecretObj(NamedMeta(APINamespace(cr), PairSecretName), TLS, map[TLSKeyKey := tlsKey, TLSCertKey := tlsCrt])
  }

  /** BuildTLSKeyCertSecretForIngress: the same key pair, for the shared ingress, in the cluster namespace. */
  function BuildTLSKeyCertSecretForIngress(cr: PolicyControl, tlsKey: string, tlsCrt: string): (o: Obj)
    ensures o.SecretObj? && o.Key() == ObjectKey("secrets", ClusterNamespace(cr), IngressSecretName)
    ensures o.secretType == TLS && o.data.Keys == {TLSKeyKey, TLSCertKey}
    ensures o.data[TLSKeyKey] == tlsKey && o.data[TLSCertKey] == tlsCrt
  {
    SecretObj(NamedMeta(ClusterNamespace(cr), IngressSecretName), TLS, map[TLSKeyKey := tlsKey, TLSCertKey := tlsCrt])
  }

  /**
   * The two remote secrets never share a key; the tenant's kubeconfig secret
   * and the shared ingress secret share one exactly when the workspace
   * normalizes to the ingress secret's name.
   */
  lemma SecretKeysDistinct(cr: PolicyControl, b: Builders, kc: string, key: string, crt: string, ca: string)
    ensures BuildTLSCASecretForKyverno(cr, ca).Key() != BuildTLSKeyCertSecretForKyverno(cr, key, crt).Key()
    ensures BuildSecretForKyverno(cr, b, kc).Key() == BuildTLSKeyCertSecretForIngress(cr, key, crt).Key()
      <==> b.normalize(cr) == IngressSecretName
  {
    assert CASecretName[|CASecretName| - 1] != PairSecretName[|PairSecretName| - 1];
  }
}
