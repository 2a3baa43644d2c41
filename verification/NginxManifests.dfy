/** The objects the operator manages for one NginxIngressController, reduced to
    what the collision protocol looks at: kind, namespace, name and labels. */
module NginxManifests {
  import opened Text

  const DEFAULT_NIC_NAME := "default"
  const DEFAULT_IC_NAME := "webapprouting.kubernetes.azure.com"
  const DEFAULT_RESOURCE_NAME := "nginx"
  const MAX_COLLISIONS: int := 5

  const METRICS_SUFFIX := "-metrics"

  /** The immutable part of a NginxIngressController. */
  datatype Nic = Nic(name: string, prefix: string, icName: string) {
    predicate IsDefault() {
      name == DEFAULT_NIC_NAME && icName == DEFAULT_IC_NAME
    }

    function ResourceName(count: nat): string {
      if IsDefault() then DEFAULT_RESOURCE_NAME else prefix + "-" + Decimal(count)
    }
  }

  datatype Kind =
    | Namespace | IngressClass | ServiceAccount | ClusterRole | Role | ClusterRoleBinding | RoleBinding
    | Service | Deployment | ConfigMap | HorizontalPodAutoscaler | PodDisruptionBudget

  datatype Key = Key(kind: Kind, namespace: string, name: string)

  const MANAGED_BY_LABEL := "app.kubernetes.io/managed-by"
  const MANAGED_BY_VALUE := "aks-app-routing-operator"
  const AKS_LABEL := "kubernetes.azure.com/managedby"
  const AKS_VALUE := "aks"

  function TopLevelLabels(): map<string, string> {
    map[MANAGED_BY_LABEL := MANAGED_BY_VALUE, AKS_LABEL := AKS_VALUE]
  }

  predicate HasTopLevelLabels(labels: map<string, string>) {
    forall l | l in TopLevelLabels() :: l in labels && labels[l] == TopLevelLabels()[l]
  }

  /** Exactly the objects that carry both labels with the operator's values are its own. */
  lemma HasTopLevelLabelsIff(labels: map<string, string>)
    ensures HasTopLevelLabels(labels) <==>
            && "app.kubernetes.io/managed-by" in labels
            && labels["app.kubernetes.io/managed-by"] == "aks-app-routing-operator"
            && "kubernetes.azure.com/managedby" in labels && labels["kubernetes.azure.com/managedby"] == "aks"
  {
    assert MANAGED_BY_LABEL[0] != AKS_LABEL[0];
    assert TopLevelLabels()[MANAGED_BY_LABEL] == MANAGED_BY_VALUE && TopLevelLabels()[AKS_LABEL] == AKS_VALUE;
  }

  datatype Managed = Managed(key: Key, labels: map<string, string>) {
    /** The operator takes ownership of exactly the objects it labels. */
    predicate Labelled() {
      HasTopLevelLabels(labels)
    }
  }

  const NGINX_LABELS: map<string, string> := map["app.kubernetes.io/name" := "nginx"] + TopLevelLabels()

  function ComponentLabels(): map<string, string> {
    TopLevelLabels()["app.kubernetes.io/component" := "ingress-controller"]
  }

  function NginxObject(key: Key): (m: Managed)
    ensures m.key == key && m.Labelled()
  {
    var own := if key.kind == IngressClass then TopLevelLabels() else ComponentLabels();
    Managed(key, own + NGINX_LABELS)
  }

  /** `conf`: the operator's namespace and whether Open Service Mesh is off. */
  datatype Conf = Conf(namespace: string, disableOsm: bool)

  function NamespaceObject(conf: Conf): (m: Managed)
    ensures m.key == Key(Namespace, "", conf.namespace) && !m.Labelled()
  {
    var labels := if conf.disableOsm then map[] else map["openservicemesh.io/monitored-by" := "osm"];
    assert AKS_LABEL in TopLevelLabels();
    assert AKS_LABEL[0] == 'k' && "openservicemesh.io/monitored-by"[0] == 'o';
    Managed(Key(Namespace, "", conf.namespace), labels)
  }

  /** The keys of the labelled objects, in the order `Objects()` lists them. */
  function NginxKeys(conf: Conf, nic: Nic, count: nat): seq<Key> {
    var r := nic.ResourceName(count);
    [ Key(IngressClass, "", nic.icName),
      Key(ServiceAccount, conf.namespace, r),
      Key(ClusterRole, "", r),
      Key(Role, conf.namespace, r),
      Key(ClusterRoleBinding, "", r),
      Key(RoleBinding, conf.namespace, r),
      Key(Service, conf.namespace, r),
      Key(Service, conf.namespace, r + METRICS_SUFFIX),
      Key(Deployment, conf.namespace, r),
      Key(ConfigMap, conf.namespace, r),
      Key(HorizontalPodAutoscaler, conf.namespace, r),
      Key(PodDisruptionBudget, conf.namespace, r) ]
  }

  /** Everything one reconcile writes; the namespace goes first, except `kube-system`. */
  function Objects(conf: Conf, nic: Nic, count: nat): seq<Managed> {
    var keys := NginxKeys(conf, nic, count);
    var objs := seq(|keys|, i requires 0 <= i < |keys| => NginxObject(keys[i]));
    if conf.namespace == "kube-system" then objs else [NamespaceObject(conf)] + objs
  }

  /** A key of this kind is named after the prefix and the count. */
  predicate PrefixKind(k: Kind) {
    k != Namespace && k != IngressClass
  }

  predicate PrefixKey(nic: Nic, count: nat, key: Key) {
    && PrefixKind(key.kind)
    && (key.name == nic.ResourceName(count) || key.name == nic.ResourceName(count) + METRICS_SUFFIX)
  }

  function IcKey(nic: Nic): Key {
    Key(IngressClass, "", nic.icName)
  }

  /** The objects of a controller at a count: `Objects` for one configuration. The
      protocol is proved for every manifest with the shape below. */
  type Manifest = (Nic, nat) -> seq<Managed>

  function ManifestOf(conf: Conf): Manifest {
    (nic: Nic, count: nat) => Objects(conf, nic, count)
  }

  /** What is labelled, and where each name comes from. */
  predicate ObjectShape(nic: Nic, count: nat, o: Managed) {
    && (o.Labelled() <==> o.key.kind != Namespace)
    && (o.key.kind == IngressClass ==> o.key == IcKey(nic))
    && (PrefixKind(o.key.kind) ==> PrefixKey(nic, count, o.key))
  }

  /** The IngressClass comes before any other labelled object. */
  predicate IcFirst(nic: Nic, objs: seq<Managed>) {
    && |objs| > 1
    && if objs[0].Labelled() then objs[0].key == IcKey(nic)
       else objs[1].Labelled() && objs[1].key == IcKey(nic)
  }

  ghost predicate Shaped(objects: Manifest) {
    && (forall nic, count, i | 0 <= i < |objects(nic, count)| :: ObjectShape(nic, count, objects(nic, count)[i]))
    && (forall nic, count :: IcFirst(nic, objects(nic, count)))
    && (forall n1: Nic, n2: Nic, count | n1.ResourceName(count) == n2.ResourceName(count) ::
          SamePrefixKeys(objects(n1, count), objects(n2, count)))
  }

  predicate SamePrefixKeys(a: seq<Managed>, b: seq<Managed>) {
    && |a| == |b|
    && forall i | 0 <= i < |a| :: a[i].key.kind == b[i].key.kind && (PrefixKind(a[i].key.kind) ==> a[i].key == b[i].key)
  }

  lemma KeysShape(conf: Conf, nic: Nic, count: nat, j: nat)
    requires j < |NginxKeys(conf, nic, count)|
    ensures var k := NginxKeys(conf, nic, count)[j];
            k.kind != Namespace && (k == IcKey(nic) || PrefixKey(nic, count, k))
  {
  }

  lemma ObjectsShape(conf: Conf, nic: Nic, count: nat, i: nat)
    requires i < |Objects(conf, nic, count)|
    ensures ObjectShape(nic, count, Objects(conf, nic, count)[i])
  {
    var keys := NginxKeys(conf, nic, count);
    var j := if conf.namespace == "kube-system" then i else i - 1;
    if 0 <= j {
      assert Objects(conf, nic, count)[i] == NginxObject(keys[j]);
      KeysShape(conf, nic, count, j);
    }
  }

  lemma ObjectsIcFirst(conf: Conf, nic: Nic, count: nat)
    ensures IcFirst(nic, Objects(conf, nic, count))
  {
    var objs := Objects(conf, nic, count);
    var k := if conf.namespace == "kube-system" then 0 else 1;
    assert objs[k] == NginxObject(NginxKeys(conf, nic, count)[0]);
    if k == 1 {
      assert objs[0] == NamespaceObject(conf);
    }
  }

  lemma ObjectsSamePrefixKeys(conf: Conf, n1: Nic, n2: Nic, count: nat)
    requires n1.ResourceName(count) == n2.ResourceName(count)
    ensures SamePrefixKeys(Objects(conf, n1, count), Objects(conf, n2, count))
  {
    var a, b := NginxKeys(conf, n1, count), NginxKeys(conf, n2, count);
    assert forall j | 0 <= j < |a| :: a[j].kind == b[j].kind && (PrefixKind(a[j].kind) ==> a[j] == b[j]);
    var x, y := Objects(conf, n1, count), Objects(conf, n2, count);
    var k := if conf.namespace == "kube-system" then 0 else 1;
    forall i | 0 <= i < |x|
      ensures x[i].key.kind == y[i].key.kind && (PrefixKind(x[i].key.kind) ==> x[i].key == y[i].key)
    {
      if k <= i {
        assert x[i] == NginxObject(a[i - k]) && y[i] == NginxObject(b[i - k]);
      }
    }
  }

  /** The operator's own manifests have that shape. */
  lemma ManifestOfShaped(conf: Conf)
    ensures Shaped(ManifestOf(conf))
  {
    var objects := ManifestOf(conf);
    forall nic, count, i | 0 <= i < |objects(nic, count)|
      ensures ObjectShape(nic, count, objects(nic, count)[i])
    {
      ObjectsShape(conf, nic, count, i);
    }
    forall nic, count
      ensures IcFirst(nic, objects(nic, count))
    {
      ObjectsIcFirst(conf, nic, count);
    }
    forall n1: Nic, n2: Nic, count | n1.ResourceName(count) == n2.ResourceName(count)
      ensures SamePrefixKeys(objects(n1, count), objects(n2, count))
    {
      ObjectsSamePrefixKeys(conf, n1, n2, count);
    }
  }

  // ---- names ---------------------------------------------------------------------------------

  predicate ClusterScoped(k: Kind) {
    k == Namespace || k == IngressClass || k == ClusterRole || k == ClusterRoleBinding
  }

  /** One object of every kind named after prefix and count, in the operator's namespace
      or cluster-wide, and a second Service for the metrics. */
  predicate Belongs(conf: Conf, nic: Nic, count: nat, k: Key) {
    && k.namespace == (if ClusterScoped(k.kind) then "" else conf.namespace)
    && match k.kind
       case Namespace => conf.namespace != "kube-system" && k.name == conf.namespace
       case IngressClass => k.name == nic.icName
       case Service => k.name == nic.ResourceName(count) || k.name == nic.ResourceName(count) + METRICS_SUFFIX
       case _ => k.name == nic.ResourceName(count)
  }

  lemma KeysAreComplete(conf: Conf, nic: Nic, count: nat, k: Key) returns (j: nat)
    requires k.kind != Namespace && Belongs(conf, nic, count, k)
    ensures j < |NginxKeys(conf, nic, count)| && NginxKeys(conf, nic, count)[j] == k
  {
    match k.kind {
      case IngressClass => j := 0;
      case ServiceAccount => j := 1;
      case ClusterRole => j := 2;
      case Role => j := 3;
      case ClusterRoleBinding => j := 4;
      case RoleBinding => j := 5;
      case Service => j := if k.name == nic.ResourceName(count) then 6 else 7;
      case Deployment => j := 8;
      case ConfigMap => j := 9;
      case HorizontalPodAutoscaler => j := 10;
      case PodDisruptionBudget => j := 11;
    }
  }

  lemma KeysBelong(conf: Conf, nic: Nic, count: nat, j: nat)
    requires j < |NginxKeys(conf, nic, count)|
    ensures Belongs(conf, nic, count, NginxKeys(conf, nic, count)[j]) && NginxKeys(conf, nic, count)[j].kind != Namespace
  {
  }

  lemma ObjectBelongs(conf: Conf, nic: Nic, count: nat, i: nat)
    requires i < |Objects(conf, nic, count)|
    ensures Belongs(conf, nic, count, Objects(conf, nic, count)[i].key)
  {
    var keys := NginxKeys(conf, nic, count);
    var j := if conf.namespace == "kube-system" then i else i - 1;
    if 0 <= j {
      assert Objects(conf, nic, count)[i] == NginxObject(keys[j]);
      KeysBelong(conf, nic, count, j);
    }
  }

  lemma KeyIsWritten(conf: Conf, nic: Nic, count: nat, j: nat) returns (i: nat)
    requires j < |NginxKeys(conf, nic, count)|
    ensures i < |Objects(conf, nic, count)| && Objects(conf, nic, count)[i].key == NginxKeys(conf, nic, count)[j]
  {
    i := if conf.namespace == "kube-system" then j else j + 1;
    assert Objects(conf, nic, count)[i] == NginxObject(NginxKeys(conf, nic, count)[j]);
  }

  lemma BelongingIsWritten(conf: Conf, nic: Nic, count: nat, k: Key) returns (i: nat)
    requires Belongs(conf, nic, count, k)
    ensures i < |Objects(conf, nic, count)| && Objects(conf, nic, count)[i].key == k
  {
    if k.kind == Namespace {
      i := 0;
      assert Objects(conf, nic, count)[0] == NamespaceObject(conf);
    } else {
      var j := KeysAreComplete(conf, nic, count, k);
      i := KeyIsWritten(conf, nic, count, j);
    }
  }

  /** A reconcile writes exactly the objects that belong to the controller. */
  lemma ObjectsAreComplete(conf: Conf, nic: Nic, count: nat, k: Key)
    ensures (exists i: nat :: i < |Objects(conf, nic, count)| && Objects(conf, nic, count)[i].key == k)
            <==> Belongs(conf, nic, count, k)
  {
    if i: nat :| i < |Objects(conf, nic, count)| && Objects(conf, nic, count)[i].key == k {
      ObjectBelongs(conf, nic, count, i);
    }
    if Belongs(conf, nic, count, k) {
      var i := BelongingIsWritten(conf, nic, count, k);
    }
  }

  /** A name `prefix-count` determines both parts: the count has no dash in it. */
  lemma {:induction false} PrefixNameInjective(p: string, c: nat, q: string, d: nat)
    requires p + "-" + Decimal(c) == q + "-" + Decimal(d)
    ensures p == q && c == d
  {
    var a, b := Decimal(c), Decimal(d);
    var s := p + "-" + a;
    assert s[|p|] == '-' && s[|q|] == '-';
    assert forall i | |p| < i < |s| :: s[i] == a[i - |p| - 1];
    assert forall i | |q| < i < |s| :: s[i] == b[i - |q| - 1];
    assert |p| == |q|;
    assert p == s[..|p|] && q == s[..|q|];
    assert a == s[|p| + 1..] && b == s[|q| + 1..];
    DecimalInjective(c, d);
  }

  /** No resource name ends the way a metrics name does, and only the default
      controller's name is `nginx`. */
  lemma ResourceNameLastChar(nic: Nic, c: nat)
    ensures |nic.ResourceName(c)| > 0
    ensures var r := nic.ResourceName(c);
            if nic.IsDefault() then r[|r| - 1] == 'x' else IsDigit(r[|r| - 1])
  {
    if !nic.IsDefault() {
      var r, d := nic.ResourceName(c), Decimal(c);
      assert r[|r| - 1] == d[|d| - 1];
    }
  }

  /** Two controllers meet on a prefix-derived object only if they are both the
      default one, or both chose the same prefix and the same count. */
  lemma PrefixKeysDisjoint(n1: Nic, c1: nat, n2: Nic, c2: nat, key: Key)
    requires PrefixKey(n1, c1, key) && PrefixKey(n2, c2, key)
    ensures n1.IsDefault() == n2.IsDefault()
    ensures !n1.IsDefault() ==> n1.prefix == n2.prefix && c1 == c2
  {
    var r1, r2 := n1.ResourceName(c1), n2.ResourceName(c2);
    ResourceNameLastChar(n1, c1);
    ResourceNameLastChar(n2, c2);
    var m1, m2 := r1 + METRICS_SUFFIX, r2 + METRICS_SUFFIX;
    assert m1[|m1| - 1] == 's' && m2[|m2| - 1] == 's';
    assert m1[..|r1|] == r1 && m2[..|r2|] == r2;
    assert r1 == r2 by {
      if m1 == m2 { assert |r1| == |r2|; }
    }
    if !n1.IsDefault() {
      PrefixNameInjective(n1.prefix, c1, n2.prefix, c2);
    }
  }
}
