/** The tenant's service, which the shared ingress routes to and which selects the tenant's pods. */
module ServiceResource {
  import opened Objects
  import opened Api
  import opened SecretResource
  import opened DeployResource
  import opened IngressResource

  /** BuildServiceForKyverno: exposes the ingress port, forwarded to the controller's port 9443. */
  function BuildServiceForKyverno(cr: PolicyControl, b: Builders): (o: Obj)
    ensures o.ServiceObj? && o.Key() == ObjectKey("services", ClusterNamespace(cr), b.normalize(cr))
    ensures o.service.selector == KyvernoLabels(b.normalize(cr))
    ensures o.service.ports == [ServicePort("TCP", cr.spec.policyControlCluster.ingressPort, ContainerPortNumber as int)]
  {
    ServiceObj(
      NamedMeta(ClusterNamespace(cr), b.normalize(cr)),
      ServiceSpec(KyvernoLabels(b.normalize(cr)), [ServicePort("TCP", cr.spec.policyControlCluster.ingressPort, 9443)]))
  }

  /**
   * The service selects exactly the pods of the tenant's deployment, in the
   * same namespace, and forwards to the port the controller listens on.
   */
  lemma ServiceSelectsKyvernoPods(cr: PolicyControl, b: Builders)
    ensures var s, d := BuildServiceForKyverno(cr, b), BuildDeploymentForKyverno(cr, b);
      && s.meta.namespace == d.meta.namespace && s.meta.name == d.meta.name
      && s.service.selector == d.deployment.templateLabels
      && |s.service.ports| == 1 && |d.deployment.containers| == 1
      && s.service.ports[0].targetPort == d.deployment.containers[0].ports[0].containerPort as int
  {
  }

  /**
   * Every path the ingress sends for the tenant, whether in a fresh ingress
   * or added by a merge, is backed by the tenant's service, on the port that
   * service exposes, in the ingress's namespace.
   */
  lemma IngressRoutesToService(cr: PolicyControl, b: Builders, path: string)
    ensures var s, e := BuildServiceForKyverno(cr, b), BuildIngressHTTPIngressPath(cr, b, path);
      && e.backend.name == s.meta.name
      && e.backend.port == s.service.ports[0].port
      && BuildIngressForKyverno(cr, b).meta.namespace == s.meta.namespace
  {
  }

  /** Two tenants in one cluster namespace with distinct normalized names never share a deployment, service or kubeconfig secret. */
  lemma TenantObjectsDistinct(cr1: PolicyControl, cr2: PolicyControl, b: Builders, kc1: string, kc2: string)
    requires b.normalize(cr1) != b.normalize(cr2)
    ensures BuildDeploymentForKyverno(cr1, b).Key() != BuildDeploymentForKyverno(cr2, b).Key()
    ensures BuildServiceForKyverno(cr1, b).Key() != BuildServiceForKyverno(cr2, b).Key()
    ensures BuildSecretForKyverno(cr1, b, kc1).Key() != BuildSecretForKyverno(cr2, b, kc2).Key()
  {
  }
}
