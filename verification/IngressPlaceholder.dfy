/** The placeholder-pod controller on the Ingress side: whether it keeps the pod of an
    Ingress's SPC, and under which ServiceAccount the pod runs. */
module IngressPlaceholder {
  import opened Wrappers
  import opened SpcReconcile
  import opened SpcIngress
  import G = SpcGateway

  /** `getServiceAccountName`: "" runs the pod without workload identity. */
  function PodServiceAccount(env: Env, ing: Ingress, workloadIdentityEnabled: bool): Result<string, Error> {
    var sa := Annotation(ing, SERVICE_ACCOUNT);
    if !workloadIdentityEnabled || sa == "" then Ok("")
    else match G.ClientIdOf(env.base, NamespacedName(ing.namespace, sa))
      case Err(e) => Err(e)
      case Ok(_) => Ok(sa)
  }

  /** It fails exactly if workload identity is enabled and the named ServiceAccount has no
      client id: as an API error if it cannot be read, else as the user's mistake. */
  lemma PodServiceAccountFailsIff(env: Env, ing: Ingress, workloadIdentityEnabled: bool)
    ensures var r, sa := PodServiceAccount(env, ing, workloadIdentityEnabled), Annotation(ing, SERVICE_ACCOUNT);
            && (r.Err? <==> workloadIdentityEnabled && sa != "" && !G.HasClientId(env.base, NamespacedName(ing.namespace, sa)))
            && (r.Err? ==> (r.error == OtherError <==> env.base.sas(NamespacedName(ing.namespace, sa)).Unreadable?))
            && (r.Ok? ==> r.value == if workloadIdentityEnabled then sa else "")
  {
  }

  /** After a reconcile of the SPC the pod is kept exactly if the operator's SPC is there. */
  lemma IngressPodKeptIffSpc(env: Env, c: Cluster<Ingress>, faults: Faults)
    requires ReconcileOnce(IngressSource(env), c, faults).1.Done?
    ensures var own := NamespacedName(c.stored.namespace, SpcName(c.stored));
            && (HasSpc(ReconcileOnce(IngressSource(env), c, faults).0.spcs, own) <==> ShouldReconcile(env, c.stored) == Ok(true))
            && (ShouldReconcile(env, c.stored) == Ok(true) <==> Wanted(env, c.stored))
  {
    IngressOutcome(env, c, faults, NamespacedName(c.stored.namespace, SpcName(c.stored)));
  }

  /** What the SPC needs of the pod: the ServiceAccount of its client id, or none. */
  predicate Suits(env: Env, ing: Ingress, identity: Identity, sa: string) {
    if identity.Workload? then
      sa != "" && G.ClientIdOf(env.base, NamespacedName(ing.namespace, sa)) == Ok(identity.clientId)
    else sa == ""
  }

  /** The pod runs as its SPC needs, exactly if workload identity is enabled or the Ingress
      does not ask for it: the SPC is built for workload identity in either case. */
  lemma IngressPodSuitsIff(env: Env, c: Cluster<Ingress>, faults: Faults, workloadIdentityEnabled: bool)
    requires ReconcileOnce(IngressSource(env), c, faults).1.Done? && Wanted(env, c.stored)
    ensures var ing, spcs := c.stored, ReconcileOnce(IngressSource(env), c, faults).0.spcs;
            var own, sa := NamespacedName(ing.namespace, SpcName(ing)), PodServiceAccount(env, ing, workloadIdentityEnabled);
            && own in spcs && sa.Ok?
            && (Suits(env, ing, spcs[own].content.identity, sa.value)
                <==> workloadIdentityEnabled || Annotation(ing, SERVICE_ACCOUNT) == "")
  {
    IngressIsServed(env, c, faults);
  }
}
