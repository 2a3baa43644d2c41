/** Gateways as owners of SecretProviderClasses: one per listener. */
module SpcGateway {
  import opened Wrappers
  import opened SpcReconcile

  const CERT_URI_OPTION := "kubernetes.azure.com/tls-cert-keyvault-uri"
  const SERVICE_ACCOUNT_OPTION := "kubernetes.azure.com/tls-cert-service-account"
  const CLIENT_ID_ANNOTATION := "azure.workload.identity/client-id"

  const ISTIO_CLASS := "istio"
  const APP_ROUTING_CLASS := "approuting-istio"

  const MAX_NAME: nat := 253

  /** A reference to a Secret in the core group. */
  datatype CertRef = CertRef(namespace: string, name: string)

  /** TLS settings of a listener; the options may be nil. */
  datatype Tls = Tls(options: Option<map<string, string>>, certRefs: seq<CertRef>)

  datatype Listener = Listener(name: string, tls: Option<Tls>)

  datatype Gateway = Gateway(name: string, namespace: string, uid: string, className: string, listeners: seq<Listener>)

  /** A reference to a certificate, as parsed from its URI. */
  datatype KvCert = KvCert(vaultName: string, certName: string, objectVersion: string)

  /** Answer of a Get on a ServiceAccount: its annotations, not found, or an API error. */
  datatype SaReading = Missing | Unreadable | Present(annotations: map<string, string>)

  /** What the iterator consults besides the Gateway: the configuration, the URI
      parser of the library, and the ServiceAccounts by namespace and name. */
  datatype Env = Env(tenantId: string, cloud: string, parseUri: string -> Option<KvCert>, sas: NamespacedName -> SaReading)

  // ---- one listener --------------------------------------------------------------------------

  predicate IsManaged(gw: Gateway) {
    gw.className == ISTIO_CLASS || gw.className == APP_ROUTING_CLASS
  }

  predicate HasOptions(l: Listener) {
    l.tls.Some? && l.tls.value.options.Some?
  }

  function TlsOption(l: Listener, option: string): string {
    if HasOptions(l) && option in l.tls.value.options.value then l.tls.value.options.value[option] else ""
  }

  predicate IsKvEnabled(l: Listener) {
    TlsOption(l, CERT_URI_OPTION) != ""
  }

  function ServiceAccountOf(l: Listener): string {
    TlsOption(l, SERVICE_ACCOUNT_OPTION)
  }

  function FullName(gwName: string, listener: string): string {
    "kv-gw-cert-" + gwName + "-" + listener
  }

  function SpcName(gwName: string, listener: string): string {
    var name := FullName(gwName, listener);
    if |name| > MAX_NAME then name[..MAX_NAME] else name
  }

  function SpcKey(gw: Gateway, l: Listener): NamespacedName {
    NamespacedName(gw.namespace, SpcName(gw.name, l.name))
  }

  function ClientIdOf(env: Env, sa: NamespacedName): Result<string, Error> {
    match env.sas(sa)
    case Unreadable => Err(OtherError)
    case Missing => Err(UserError)
    case Present(annotations) =>
      if CLIENT_ID_ANNOTATION !in annotations || annotations[CLIENT_ID_ANNOTATION] == "" then Err(UserError)
      else Ok(annotations[CLIENT_ID_ANNOTATION])
  }

  function ClientIdFromListener(env: Env, namespace: string, l: Listener): Result<string, Error> {
    if ServiceAccountOf(l) == "" || !IsKvEnabled(l) then Err(UserError)
    else ClientIdOf(env, NamespacedName(namespace, ServiceAccountOf(l)))
  }

  /** What `modifyOwner` does: the listener's certificate is the Secret of its SPC. */
  datatype Change = SetCertRef(index: nat, ref: CertRef)

  function Apply(gw: Gateway, c: Change): Gateway {
    if c.index < |gw.listeners| && gw.listeners[c.index].tls.Some? then
      var l := gw.listeners[c.index];
      gw.(listeners := gw.listeners[c.index := l.(tls := Some(l.tls.value.(certRefs := [c.ref])))])
    else gw
  }

  function ListenerItem(env: Env, gw: Gateway, i: nat): Item<Change>
    requires i < |gw.listeners|
  {
    var l := gw.listeners[i];
    var key := SpcKey(gw, l);
    if !IsKvEnabled(l) then Cleanup(key)
    else
      match ClientIdFromListener(env, gw.namespace, l)
      case Err(e) => Failure(e)
      case Ok(clientId) =>
        match env.parseUri(TlsOption(l, CERT_URI_OPTION))
        case None => Failure(UserError)
        case Some(cert) =>
          Reconcile(Opts(key, clientId, env.tenantId, cert.vaultName, cert.certName, cert.objectVersion,
                         key.name, env.cloud, true),
                    Some(SetCertRef(i, CertRef(gw.namespace, key.name))))
  }

  function GatewayItem(env: Env, gw: Gateway, i: nat): Item<Change> {
    if i < |gw.listeners| then ListenerItem(env, gw, i) else Failure(OtherError)
  }

  /** `gatewayToSpcOpts`: nothing for a Gateway of another class. */
  function GatewaySource(env: Env): Source<Gateway, Change> {
    Source((gw: Gateway) => if IsManaged(gw) then |gw.listeners| else 0,
           (gw, i) => GatewayItem(env, gw, i),
           (gw, c) => Apply(gw, c),
           (gw: Gateway) => Owner("Gateway", gw.name, gw.uid))
  }

  /** Everything the iterator yields for a Gateway. */
  ghost function Yields(env: Env, gw: Gateway): seq<Item<Change>> {
    var src := GatewaySource(env);
    seq(src.count(gw), i requires 0 <= i < src.count(gw) => src.item(gw, i))
  }

  // ---- the fixed point -----------------------------------------------------------------------

  /** Writing a certificate reference is invisible to the iterator. */
  lemma ApplyInvisible(env: Env, gw: Gateway, c: Change, i: nat)
    ensures GatewayItem(env, Apply(gw, c), i) == GatewayItem(env, gw, i)
  {
    var gw' := Apply(gw, c);
    if i < |gw.listeners| {
      var l, l' := gw.listeners[i], gw'.listeners[i];
      assert l'.name == l.name;
      assert forall option :: TlsOption(l', option) == TlsOption(l, option);
    }
  }

  lemma GatewayUndisturbed(env: Env)
    ensures Undisturbed(GatewaySource(env))
  {
    var src := GatewaySource(env);
    forall o, c
      ensures SameYield(src, o, src.apply(o, c))
    {
      forall i
        ensures src.item(src.apply(o, c), i) == src.item(o, i)
      {
        ApplyInvisible(env, o, c, i);
      }
    }
  }

  lemma GatewaySettles(env: Env)
    ensures Settles(GatewaySource(env))
  {
    var src := GatewaySource(env);
    forall o, c
      ensures Stable(src, src.apply(o, c), c)
    {
    }
    forall o, i: nat, j: nat, o' | i < j && Modifies(src, o, i) && Modifies(src, o, j)
                           && Stable(src, o', src.item(o, i).change.value)
      ensures Stable(src, src.apply(o', src.item(o, j).change.value), src.item(o, i).change.value)
    {
      assert src.item(o, i).change.value.index == i && src.item(o, j).change.value.index == j;
      ApplyOther(o', src.item(o, i).change.value, src.item(o, j).change.value);
    }
  }

  lemma ApplyOther(gw: Gateway, c: Change, d: Change)
    requires c.index != d.index && Apply(gw, c) == gw
    ensures Apply(Apply(gw, d), c) == Apply(gw, d)
  {
  }

  /** Any number of listeners: a second reconcile of a Gateway changes nothing and
      asks for no update. */
  lemma GatewayFixedPoint(env: Env, c: Cluster<Gateway>, faults: Faults)
    requires var ending := ReconcileOnce(GatewaySource(env), c, faults).1; ending.Done? || ending.InvalidInput?
    ensures var (c', ending) := ReconcileOnce(GatewaySource(env), c, faults);
            ReconcileOnce(GatewaySource(env), c', NO_FAULTS) == (c', ending)
  {
    GatewayUndisturbed(env);
    GatewaySettles(env);
    FixedPoint(GatewaySource(env), c, faults);
  }

  /** After any number of reconciles cut off by errors, one that is not ends as if they had never been. */
  lemma GatewayRecovers(env: Env, c: Cluster<Gateway>, fs: seq<Faults>)
    ensures var src := GatewaySource(env);
            SameOutcome(ReconcileOnce(src, Attempts(src, c, fs), NO_FAULTS), ReconcileOnce(src, c, NO_FAULTS))
  {
    GatewayUndisturbed(env);
    GatewaySettles(env);
    RecoversFromAll(GatewaySource(env), c, fs);
  }

  // ---- which Gateways reconcile --------------------------------------------------------------

  /** The ServiceAccount is there with a client id. */
  predicate HasClientId(env: Env, sa: NamespacedName) {
    && env.sas(sa).Present? && CLIENT_ID_ANNOTATION in env.sas(sa).annotations
    && env.sas(sa).annotations[CLIENT_ID_ANNOTATION] != ""
  }

  /** A listener without a certificate URI, or with one that can be read, and a ServiceAccount to fetch it as. */
  predicate WellConfigured(env: Env, namespace: string, l: Listener) {
    var uri, sa := TlsOption(l, CERT_URI_OPTION), TlsOption(l, SERVICE_ACCOUNT_OPTION);
    uri != "" ==> sa != "" && HasClientId(env, NamespacedName(namespace, sa)) && env.parseUri(uri).Some?
  }

  lemma ItemFailsIff(env: Env, gw: Gateway, i: nat)
    requires i < |gw.listeners|
    ensures GatewayItem(env, gw, i).Failure? <==> !WellConfigured(env, gw.namespace, gw.listeners[i])
    ensures var sa := TlsOption(gw.listeners[i], SERVICE_ACCOUNT_OPTION);
            GatewayItem(env, gw, i) == Failure(OtherError) <==>
            && TlsOption(gw.listeners[i], CERT_URI_OPTION) != ""
            && sa != "" && env.sas(NamespacedName(gw.namespace, sa)).Unreadable?
  {
  }

  predicate OfOurClass(gw: Gateway) {
    gw.className == "istio" || gw.className == "approuting-istio"
  }

  /** Without faults a Gateway reconciles exactly if it is of another class or all its
      listeners are well configured. */
  lemma GatewayEndsDoneIff(env: Env, c: Cluster<Gateway>)
    ensures ReconcileOnce(GatewaySource(env), c, NO_FAULTS).1 == Done <==>
            !OfOurClass(c.stored) ||
            forall i: nat | i < |c.stored.listeners| :: WellConfigured(env, c.stored.namespace, c.stored.listeners[i])
  {
    var gw, src := c.stored, GatewaySource(env);
    GatewayUndisturbed(env);
    var k := CleanReconcile(src, gw, c);
    forall i: nat | i < |gw.listeners|
      ensures src.item(gw, i).Failure? <==> !WellConfigured(env, gw.namespace, gw.listeners[i])
    {
      ItemFailsIff(env, gw, i);
    }
    if k < src.count(gw) {
      assert src.item(gw, k).Failure?;
    } else {
      assert forall i: nat | i < k :: Stops(src.item(gw, i), NO_FAULTS, i) == None;
    }
  }

  /** And the first listener that is not decides how it ends: a ServiceAccount that cannot
      be read is a failure, anything else the user's mistake. The SPCs of the listeners
      before it are written, the Gateway is not. */
  lemma GatewayEndsAtFirstMistake(env: Env, c: Cluster<Gateway>, i: nat)
    requires OfOurClass(c.stored) && i < |c.stored.listeners|
    requires !WellConfigured(env, c.stored.namespace, c.stored.listeners[i])
    requires forall j: nat | j < i :: WellConfigured(env, c.stored.namespace, c.stored.listeners[j])
    ensures var gw, (c', ending) := c.stored, ReconcileOnce(GatewaySource(env), c, NO_FAULTS);
            var sa := TlsOption(gw.listeners[i], SERVICE_ACCOUNT_OPTION);
            && ending == (if sa != "" && env.sas(NamespacedName(gw.namespace, sa)).Unreadable? then Failed else InvalidInput)
            && c'.spcs == SpcsAfter(GatewaySource(env), gw, c.spcs, i) && c'.stored == gw
  {
    var gw, src := c.stored, GatewaySource(env);
    GatewayUndisturbed(env);
    var k := CleanReconcile(src, gw, c);
    ItemFailsIff(env, gw, i);
    assert src.item(gw, i) == GatewayItem(env, gw, i);
    if k < i {
      ItemFailsIff(env, gw, k);
    }
  }
}
