/** The tenant's Kyverno controller deployment, in the cluster namespace. */
module DeployResource {
  import opened Wrappers
  import opened Objects
  import opened Api
  import opened Format
  import opened SecretResource

  const ContainerName := "kyverno"
  const ContainerPortNumber: int32 := 9443
  const CredentialsVolume := "kyverno-runtime-credentials"
  const CredentialsMountPath := "/tmp/kyverno-runtime-credentials"

  /** The labels that tie a tenant's pods, deployment and service together. */
  function KyvernoLabels(norm: string): map<string, string> {
    map["app" := "kyverno-controller", "workspace" := norm]
  }

  /** `host:port/workspace`, the URL the controller advertises to kcp. */
  function AdvertisedUrl(cr: PolicyControl, b: Builders): string {
    cr.spec.policyControlCluster.ingressHost + ":" + FormatInt(cr.spec.policyControlCluster.ingressPort as int) + "/" + b.normalize(cr)
  }

  function KyvernoContainer(cr: PolicyControl, b: Builders): Container {
    Container(
      ContainerName,
      cr.spec.kyvernoInWorkspace.kyvernoImage,
      ["-v=4", "--kubeconfig=" + CredentialsMountPath + "/" + KubeConfigKey, "--serverIP=" + AdvertisedUrl(cr, b)],
      [EnvVar("KYVERNO_SVC", "kyverno-svc-remote")],
      [ContainerPort("http", "TCP", ContainerPortNumber)],
      [VolumeMount(CredentialsVolume, CredentialsMountPath, true)])
  }

  /**
   * BuildDeploymentForKyverno: one replica of the controller, named after the
   * normalized workspace. Its labels, its selector and its pod labels are the
   * same tenant labels, so the deployment owns exactly its own pods.
   */
  function BuildDeploymentForKyverno(cr: PolicyControl, b: Builders): (o: Obj)
    ensures o.DeploymentObj? && o.Key() == ObjectKey("deployments", ClusterNamespace(cr), b.normalize(cr))
    ensures o.meta.labels == o.deployment.selector == o.deployment.templateLabels == KyvernoLabels(b.normalize(cr))
    ensures o.deployment.replicas == 1
    ensures |o.deployment.containers| == 1
    ensures var c := o.deployment.containers[0];
      && c.name == ContainerName && c.image == cr.spec.kyvernoInWorkspace.kyvernoImage
      && c.ports == [ContainerPort("http", "TCP", ContainerPortNumber)]
      && c.env == [EnvVar("KYVERNO_SVC", "kyverno-svc-remote")]
  {
    var norm := b.normalize(cr);
    DeploymentObj(
      Meta(ClusterNamespace(cr), norm, KyvernoLabels(norm), map[], None),
      DeploymentSpec(1, KyvernoLabels(norm), KyvernoLabels(norm), [KyvernoContainer(cr, b)],
        [Volume(CredentialsVolume, norm)]))
  }

  /**
   * The controller reads its kubeconfig from the tenant's kubeconfig secret:
   * the mounted volume is that secret, in the same namespace, and the
   * `--kubeconfig` argument names the secret's key under the mount path.
   */
  lemma DeploymentMountsKubeConfigSecret(cr: PolicyControl, b: Builders, kc: string)
    ensures var d, s := BuildDeploymentForKyverno(cr, b), BuildSecretForKyverno(cr, b, kc);
      && |d.deployment.containers| == 1 && |d.deployment.volumes| == 1
      && d.deployment.volumes[0].secretName == s.meta.name && d.meta.namespace == s.meta.namespace
      && KubeConfigKey in s.data
      && var c := d.deployment.containers[0];
         && c.name == ContainerName
         && VolumeMount(d.deployment.volumes[0].name, CredentialsMountPath, true) in c.volumeMounts
         && "--kubeconfig=" + CredentialsMountPath + "/" + KubeConfigKey in c.args
  {
  }

  /**
   * The advertised URL names the ingress host and port and ends in the
   * tenant's path segment; distinct ports give distinct URLs.
   */
  lemma AdvertisedUrlShape(cr: PolicyControl, cr': PolicyControl, b: Builders)
    requires cr'.spec.policyControlCluster.ingressHost == cr.spec.policyControlCluster.ingressHost
    requires b.normalize(cr') == b.normalize(cr)
    ensures "--serverIP=" + AdvertisedUrl(cr, b) in BuildDeploymentForKyverno(cr, b).deployment.containers[0].args
    ensures AdvertisedUrl(cr, b) == AdvertisedUrl(cr', b) <==>
      cr.spec.policyControlCluster.ingressPort == cr'.spec.policyControlCluster.ingressPort
  {
    var h, n := cr.spec.policyControlCluster.ingressHost, b.normalize(cr);
    var p, p' := cr.spec.policyControlCluster.ingressPort as int, cr'.spec.policyControlCluster.ingressPort as int;
    var u, u' := AdvertisedUrl(cr, b), AdvertisedUrl(cr', b);
    if u == u' {
      var f, f' := FormatInt(p), FormatInt(p');
      var a, c := h + ":", "/" + n;
      assert u == a + f + c && u' == a + f' + c;
      assert |f| == |f'|;
      assert f == (a + f + c)[|a|..|a| + |f|];
      assert f' == (a + f' + c)[|a|..|a| + |f'|];
      FormatIntInjective(p, p');
    }
  }
}
