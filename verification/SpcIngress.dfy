/** Ingresses as owners of SecretProviderClasses: one each, and the Ingress's own
    TLS section points at it when the user asks for that. */
module SpcIngress {
  import opened Wrappers
  import opened Text
  import opened SpcReconcile
  import G = SpcGateway

  const KEY_VAULT_URI := "kubernetes.azure.com/tls-cert-keyvault-uri"
  const TLS_MANAGED := "kubernetes.azure.com/tls-cert-keyvault-managed"
  const SERVICE_ACCOUNT := "kubernetes.azure.com/tls-cert-service-account"

  datatype IngressTls = IngressTls(secretName: string, hosts: seq<string>)

  /** `hosts` has one entry per rule, "" for a rule without a host. */
  datatype Ingress = Ingress(name: string, namespace: string, uid: string, className: Option<string>,
                             annotations: map<string, string>, hosts: seq<string>, tls: seq<IngressTls>)

  /** What the iterator consults: whether a class is managed (this can fail), and as for Gateways. */
  datatype Env = Env(base: G.Env, msiClientId: string, managing: Option<string> -> Result<bool, Error>)

  function SpcName(ing: Ingress): string {
    var name := "keyvault-" + ing.name;
    if |name| > G.MAX_NAME then name[..G.MAX_NAME] else name
  }

  function Annotation(ing: Ingress, key: string): string {
    if key in ing.annotations then ing.annotations[key] else ""
  }

  function ShouldReconcile(env: Env, ing: Ingress): Result<bool, Error> {
    match env.managing(ing.className)
    case Err(_) => Err(OtherError)
    case Ok(managed) => Ok(KEY_VAULT_URI in ing.annotations && managed)
  }

  function RuleHosts(hosts: seq<string>): seq<string> {
    if hosts == [] then []
    else RuleHosts(hosts[..|hosts| - 1]) + if hosts[|hosts| - 1] != "" then [hosts[|hosts| - 1]] else []
  }

  /** `addTlsRef` replaces the whole section by one entry for all hosts. */
  function AddTls(ing: Ingress, secretName: string): Ingress {
    ing.(tls := [IngressTls(secretName, RuleHosts(ing.hosts))])
  }

  /** The loop of `addTlsRef`. */
  method CollectHosts(hosts: seq<string>) returns (r: seq<string>)
    ensures r == RuleHosts(hosts)
  {
    r := [];
    for i := 0 to |hosts|
      invariant r == RuleHosts(hosts[..i])
    {
      assert hosts[..i + 1][..i] == hosts[..i];
      if hosts[i] != "" {
        r := r + [hosts[i]];
      }
    }
    assert hosts[..|hosts|] == hosts;
  }

  /** The identity: the operator's own, or the workload identity of a named ServiceAccount. */
  function IdentityOf(env: Env, ing: Ingress): Result<(string, bool), Error> {
    var sa := Annotation(ing, SERVICE_ACCOUNT);
    if sa == "" then Ok((env.msiClientId, false))
    else match G.ClientIdOf(env.base, NamespacedName(ing.namespace, sa))
      case Err(e) => Err(e)
      case Ok(clientId) => Ok((clientId, true))
  }

  function IngressItem(env: Env, ing: Ingress): Item<string> {
    var key := NamespacedName(ing.namespace, SpcName(ing));
    match ShouldReconcile(env, ing)
    case Err(e) => Failure(e)
    case Ok(false) => Cleanup(key)
    case Ok(true) =>
      match env.base.parseUri(Annotation(ing, KEY_VAULT_URI))
      case None => Failure(UserError)
      case Some(cert) =>
        match IdentityOf(env, ing)
        case Err(e) => Failure(e)
        case Ok((clientId, workload)) =>
          Reconcile(Opts(key, clientId, env.base.tenantId, cert.vaultName, cert.certName, cert.objectVersion,
                         key.name, env.base.cloud, workload),
                    if Lower(Annotation(ing, TLS_MANAGED)) == "true" then Some(key.name) else None)
  }

  function IngressSource(env: Env): Source<Ingress, string> {
    Source((ing: Ingress) => 1,
           (ing: Ingress, i: nat) => IngressItem(env, ing),
           (ing: Ingress, secret: string) => AddTls(ing, secret),
           (ing: Ingress) => Owner("Ingress", ing.name, ing.uid))
  }

  lemma IngressUndisturbed(env: Env)
    ensures Undisturbed(IngressSource(env))
  {
    var src := IngressSource(env);
    forall o, m
      ensures SameYield(src, o, src.apply(o, m))
    {
      assert IngressItem(env, AddTls(o, m)) == IngressItem(env, o);
    }
  }

  lemma IngressSettles(env: Env)
    ensures Settles(IngressSource(env))
  {
    var src := IngressSource(env);
    forall o, m
      ensures Stable(src, src.apply(o, m), m)
    {
    }
  }

  /** A second reconcile of an Ingress changes nothing and asks for no update. */
  lemma IngressFixedPoint(env: Env, c: Cluster<Ingress>, faults: Faults)
    requires var ending := ReconcileOnce(IngressSource(env), c, faults).1; ending.Done? || ending.InvalidInput?
    ensures var (c', ending) := ReconcileOnce(IngressSource(env), c, faults);
            ReconcileOnce(IngressSource(env), c', NO_FAULTS) == (c', ending)
  {
    IngressUndisturbed(env);
    IngressSettles(env);
    FixedPoint(IngressSource(env), c, faults);
  }

  /** After any number of reconciles cut off by errors, one that is not ends as if they had never been. */
  lemma IngressRecovers(env: Env, c: Cluster<Ingress>, fs: seq<Faults>)
    ensures var src := IngressSource(env);
            SameOutcome(ReconcileOnce(src, Attempts(src, c, fs), NO_FAULTS), ReconcileOnce(src, c, NO_FAULTS))
  {
    IngressUndisturbed(env);
    IngressSettles(env);
    RecoversFromAll(IngressSource(env), c, fs);
  }

  /** After a reconcile that ended well the SPC is there exactly if the Ingress is
      managed and names a certificate; otherwise the operator's is gone and
      anybody else's is untouched. Other SPCs are not touched either way. */
  lemma IngressOutcome(env: Env, c: Cluster<Ingress>, faults: Faults, key: NamespacedName)
    requires ReconcileOnce(IngressSource(env), c, faults).1.Done?
    ensures var ing := c.stored;
            var own := NamespacedName(ing.namespace, SpcName(ing));
            var spcs := ReconcileOnce(IngressSource(env), c, faults).0.spcs;
            && ShouldReconcile(env, ing).Ok?
            && (key != own ==> Lookup(spcs, key) == Lookup(c.spcs, key))
            && (ShouldReconcile(env, ing).value ==>
                  && IngressItem(env, ing).Reconcile?
                  && Lookup(spcs, own) == Some(BuildSpc(Owner("Ingress", ing.name, ing.uid), IngressItem(env, ing).opts)))
            && (!ShouldReconcile(env, ing).value ==>
                  Lookup(spcs, own) == if own in c.spcs && !c.spcs[own].Managed() then Some(c.spcs[own]) else None)
  {
    var src := IngressSource(env);
    var own := NamespacedName(c.stored.namespace, SpcName(c.stored));
    IngressUndisturbed(env);
    var k := ReconcileLeaves(src, c, faults);
    assert k == 1 && Stops(src.item(c.stored, 0), NO_FAULTS, 0) == None;
    EntriesAreIndependent(src, c.stored, c.spcs, key, 1);
    EntriesAreIndependent(src, c.stored, c.spcs, own, 1);
    assert EntryAfter(src, c.stored, key, Lookup(c.spcs, key), 0) == Lookup(c.spcs, key);
    assert EntryAfter(src, c.stored, own, Lookup(c.spcs, own), 0) == Lookup(c.spcs, own);
  }

  /** From a managed Ingress's annotations to its TLS section: the SPC fetches the
      certificate its URI names, with the ServiceAccount's client id or else the
      operator's own, and with managed TLS the section holds exactly the SPC's
      Secret for all hosts. */
  lemma IngressIsServed(env: Env, c: Cluster<Ingress>, faults: Faults)
    requires ReconcileOnce(IngressSource(env), c, faults).1.Done?
    requires ShouldReconcile(env, c.stored) == Ok(true)
    ensures var ing, c' := c.stored, ReconcileOnce(IngressSource(env), c, faults).0;
            var own := NamespacedName(ing.namespace, SpcName(ing));
            var cert, sa := env.base.parseUri(Annotation(ing, KEY_VAULT_URI)), Annotation(ing, SERVICE_ACCOUNT);
            && cert.Some? && own in c'.spcs
            && var content := c'.spcs[own].content;
            && content.vault == cert.value.vaultName && content.cert == cert.value.certName
            && content.version == cert.value.objectVersion
            && content.tenant == env.base.tenantId && content.cloud == env.base.cloud
            && (sa == "" ==> content.identity == Vm(env.msiClientId))
            && (sa != "" ==> content.identity.Workload?
                             && G.ClientIdOf(env.base, NamespacedName(ing.namespace, sa)) == Ok(content.identity.clientId))
            && c'.stored == if Lower(Annotation(ing, TLS_MANAGED)) == "true"
                            then ing.(tls := [IngressTls(content.secret, RuleHosts(ing.hosts))]) else ing
  {
    var src := IngressSource(env);
    IngressOutcome(env, c, faults, NamespacedName(c.stored.namespace, SpcName(c.stored)));
    IngressUndisturbed(env);
    var k := ReconcileLeaves(src, c, faults);
    assert ObjAfter(src, c.stored, c.stored, 0) == c.stored;
    assert ObjAfter(src, c.stored, c.stored, 1) == StepObj(src, c.stored, IngressItem(env, c.stored));
  }

  // ---- which Ingresses get an SPC ------------------------------------------------------------

  /** The Ingress is of a class the operator manages and carries the Key Vault annotation. */
  predicate Wanted(env: Env, ing: Ingress) {
    env.managing(ing.className) == Ok(true) && KEY_VAULT_URI in ing.annotations
  }

  /** After a reconcile that ended well the operator's SPC is there exactly if the Ingress is
      of a managed class and annotated; any other Ingress is left alone. */
  lemma IngressSpcIff(env: Env, c: Cluster<Ingress>, faults: Faults)
    requires ReconcileOnce(IngressSource(env), c, faults).1.Done?
    ensures var c' := ReconcileOnce(IngressSource(env), c, faults).0;
            && (HasSpc(c'.spcs, NamespacedName(c.stored.namespace, SpcName(c.stored))) <==> Wanted(env, c.stored))
            && (!Wanted(env, c.stored) ==> c'.stored == c.stored)
  {
    var src := IngressSource(env);
    IngressOutcome(env, c, faults, NamespacedName(c.stored.namespace, SpcName(c.stored)));
    IngressUndisturbed(env);
    var k := ReconcileLeaves(src, c, faults);
    assert ObjAfter(src, c.stored, c.stored, 0) == c.stored;
    assert ObjAfter(src, c.stored, c.stored, 1) == StepObj(src, c.stored, IngressItem(env, c.stored));
  }

  /** A wanted Ingress needs a URI that can be read and, if it names a ServiceAccount, one with a client id. */
  predicate WellConfigured(env: Env, ing: Ingress) {
    var sa := Annotation(ing, SERVICE_ACCOUNT);
    && env.managing(ing.className).Ok?
    && (Wanted(env, ing) ==>
          && env.base.parseUri(ing.annotations[KEY_VAULT_URI]).Some?
          && (sa != "" ==> G.HasClientId(env.base, NamespacedName(ing.namespace, sa))))
  }

  /** Without faults an Ingress reconciles exactly if it is well configured. Otherwise a class
      that cannot be looked up and a ServiceAccount that cannot be read are failures,
      anything else is the user's mistake, and nothing is written. */
  lemma IngressEndsDoneIff(env: Env, c: Cluster<Ingress>)
    ensures var ing, (c', ending) := c.stored, ReconcileOnce(IngressSource(env), c, NO_FAULTS);
            var sa := Annotation(ing, SERVICE_ACCOUNT);
            && (ending == Done <==> WellConfigured(env, ing))
            && (!WellConfigured(env, ing) ==>
                  && c' == c
                  && (ending == Failed <==>
                        || env.managing(ing.className).Err?
                        || (&& env.base.parseUri(ing.annotations[KEY_VAULT_URI]).Some? && sa != ""
                            && env.base.sas(NamespacedName(ing.namespace, sa)).Unreadable?))
                  && (ending == Failed || ending == InvalidInput))
  {
    var src := IngressSource(env);
    IngressUndisturbed(env);
    var k := CleanReconcile(src, c.stored, c);
    assert src.item(c.stored, 0) == IngressItem(env, c.stored);
    assert k == 1 ==> Stops(src.item(c.stored, 0), NO_FAULTS, 0) == None;
    assert SpcsAfter(src, c.stored, c.spcs, 0) == c.spcs;
  }

  /** From a wanted and well configured Ingress to its SPC and TLS section, without faults. */
  lemma WellConfiguredIsServed(env: Env, c: Cluster<Ingress>)
    requires Wanted(env, c.stored) && WellConfigured(env, c.stored)
    ensures ReconcileOnce(IngressSource(env), c, NO_FAULTS).1 == Done
    ensures var ing, c' := c.stored, ReconcileOnce(IngressSource(env), c, NO_FAULTS).0;
            var own, sa := NamespacedName(ing.namespace, SpcName(ing)), Annotation(ing, SERVICE_ACCOUNT);
            && HasSpc(c'.spcs, own)
            && var content, cert := c'.spcs[own].content, env.base.parseUri(ing.annotations[KEY_VAULT_URI]).value;
            && G.KvCert(content.vault, content.cert, content.version) == cert
            && content.identity == (if sa == "" then Vm(env.msiClientId)
                 else Workload(env.base.sas(NamespacedName(ing.namespace, sa)).annotations[G.CLIENT_ID_ANNOTATION]))
            && (Lower(Annotation(ing, TLS_MANAGED)) == "true" ==>
                  c'.stored.tls == [IngressTls(content.secret, RuleHosts(ing.hosts))])
            && (Lower(Annotation(ing, TLS_MANAGED)) != "true" ==> c'.stored == ing)
  {
    IngressEndsDoneIff(env, c);
    IngressSpcIff(env, c, NO_FAULTS);
    IngressIsServed(env, c, NO_FAULTS);
  }

  /** `rs` are the hosts at the rules `at`, in order: exactly the rules that have a host. */
  ghost predicate HostsAt(rs: seq<string>, hosts: seq<string>, at: seq<nat>) {
    && |at| == |rs|
    && (forall i | 0 <= i < |at| :: at[i] < |hosts| && hosts[at[i]] == rs[i])
    && (forall i, j | 0 <= i < j < |at| :: at[i] < at[j])
    && (forall p: nat | p < |hosts| :: p in at <==> hosts[p] != "")
  }

  lemma {:induction false} OneMoreHost(rs: seq<string>, hosts: seq<string>, at: seq<nat>, h: string)
    requires HostsAt(rs, hosts, at)
    ensures h == "" ==> HostsAt(rs, hosts + [h], at)
    ensures h != "" ==> HostsAt(rs + [h], hosts + [h], at + [|hosts|])
  {
    assert forall p | p in at :: p < |hosts|;
  }

  /** The hosts of the TLS section: exactly the hosts of the rules that have one, in order. */
  lemma {:induction false} RuleHostsAre(hosts: seq<string>) returns (at: seq<nat>)
    ensures HostsAt(RuleHosts(hosts), hosts, at)
  {
    if hosts == [] {
      at := [];
    } else {
      var n := |hosts| - 1;
      at := RuleHostsAre(hosts[..n]);
      OneMoreHost(RuleHosts(hosts[..n]), hosts[..n], at, hosts[n]);
      assert hosts[..n] + [hosts[n]] == hosts;
      at := at + if hosts[n] != "" then [n] else [];
    }
  }
}
