/** The OLM subscription that installs the Kyverno operator on the edge cluster. */
module SubscriptionResource {
  import opened Objects
  import opened Api

  const KyvernoPackage := "kyverno-operator"
  const KyvernoChannel := "alpha"

  /**
   * BuildSubscriptionForKyverno: named by the resource's subscription, in the
   * install namespace, subscribing automatically to the alpha channel of the
   * kyverno-operator package from the catalog in the OLM namespace.
   */
  function BuildSubscriptionForKyverno(cr: PolicyControl): (o: Obj)
    ensures o.SubscriptionObj?
    ensures o.Key() == ObjectKey("subscriptions", cr.spec.kyvernoInCluster.installNamespace, cr.spec.kyvernoInCluster.subscription.name)
    ensures o.subscription == SubscriptionSpec(KyvernoPackage, Automatic, KyvernoChannel, KyvernoPackage,
                                               cr.spec.kyvernoInCluster.subscription.olmNamespace)
  {
    var sub := cr.spec.kyvernoInCluster.subscription;
    SubscriptionObj(
      NamedMeta(cr.spec.kyvernoInCluster.installNamespace, sub.name),
      SubscriptionSpec(KyvernoPackage, Automatic, KyvernoChannel, KyvernoPackage, sub.olmNamespace))
  }
}
