/** What a reconcile of a managed Gateway leaves behind: per SPC name the last
    listener of that name decides, and with distinct names every listener gets
    exactly what it asks for. */
module GatewayOutcome {
  import opened Wrappers
  import opened SpcReconcile
  import opened SpcGateway

  // ---- one entry -----------------------------------------------------------------------------

  /** The SPC of listener `i` has this name. */
  predicate Matches(gw: Gateway, i: nat, spcName: string)
    requires i < |gw.listeners|
  {
    SpcName(gw.name, gw.listeners[i].name) == spcName
  }

  /** Listener `i` names this SPC. */
  predicate Names(gw: Gateway, i: nat, key: NamespacedName)
    requires i < |gw.listeners|
  {
    gw.namespace == key.namespace && Matches(gw, i, key.name)
  }

  lemma TouchesIsNames(env: Env, gw: Gateway, i: nat, key: NamespacedName)
    requires i < |gw.listeners|
    ensures Touches(GatewayItem(env, gw, i), key) ==> Names(gw, i, key)
    ensures !GatewayItem(env, gw, i).Failure? && Names(gw, i, key) ==> Touches(GatewayItem(env, gw, i), key)
    ensures GatewayItem(env, gw, i).Reconcile? ==> IsKvEnabled(gw.listeners[i])
    ensures GatewayItem(env, gw, i).Cleanup? <==> !IsKvEnabled(gw.listeners[i])
  {
  }

  ghost predicate LastOfName(gw: Gateway, j: nat, key: NamespacedName) {
    j < |gw.listeners| && Names(gw, j, key) && forall x: nat | j < x < |gw.listeners| :: !Names(gw, x, key)
  }

  /** A reconcile of a managed Gateway in which no listener errors. */
  ghost predicate Clean(env: Env, c: Cluster<Gateway>, faults: Faults) {
    IsManaged(c.stored) && ReconcileOnce(GatewaySource(env), c, faults).1.Done?
  }

  lemma CleanEntry(env: Env, c: Cluster<Gateway>, faults: Faults, key: NamespacedName)
    requires Clean(env, c, faults)
    ensures var src, n := GatewaySource(env), |c.stored.listeners|;
            && Lookup(ReconcileOnce(src, c, faults).0.spcs, key) == EntryAfter(src, c.stored, key, Lookup(c.spcs, key), n)
            && RunsThrough(src, c.stored, NO_FAULTS, n)
            && ReconcileOnce(src, c, faults).0.stored == ObjAfter(src, c.stored, c.stored, n)
  {
    GatewayUndisturbed(env);
    var k := ReconcileLeaves(GatewaySource(env), c, faults);
    EntriesAreIndependent(GatewaySource(env), c.stored, c.spcs, key, k);
  }

  lemma NoFailure(env: Env, gw: Gateway, i: nat)
    requires i < |gw.listeners| && RunsThrough(GatewaySource(env), gw, NO_FAULTS, |gw.listeners|)
    ensures !GatewayItem(env, gw, i).Failure?
  {
    assert Stops(GatewaySource(env).item(gw, i), NO_FAULTS, i) == None;
  }

  /** The SPC of a Key Vault listener is there after the reconcile exactly if the last
      listener with that SPC name is a Key Vault listener, whose options it then has. */
  lemma KvListenerHasSpcIff(env: Env, c: Cluster<Gateway>, faults: Faults, i: nat, j: nat)
    requires Clean(env, c, faults) && i <= j < |c.stored.listeners| && IsKvEnabled(c.stored.listeners[i])
    requires LastOfName(c.stored, j, SpcKey(c.stored, c.stored.listeners[i]))
    ensures var gw, key := c.stored, SpcKey(c.stored, c.stored.listeners[i]);
            var spcs := ReconcileOnce(GatewaySource(env), c, faults).0.spcs;
            && (key in spcs <==> IsKvEnabled(gw.listeners[j]))
            && (key in spcs ==> GatewayItem(env, gw, j).Reconcile? && spcs[key] ==
                                BuildSpc(Owner("Gateway", gw.name, gw.uid), GatewayItem(env, gw, j).opts))
  {
    var src, gw, key := GatewaySource(env), c.stored, SpcKey(c.stored, c.stored.listeners[i]);
    CleanEntry(env, c, faults, key);
    NoFailure(env, gw, i);
    NoFailure(env, gw, j);
    TouchesIsNames(env, gw, i, key);
    TouchesIsNames(env, gw, j, key);
    NotNamedNotTouched(env, gw, key, j + 1, |gw.listeners|);
    LastTouchDecides(src, gw, key, Lookup(c.spcs, key), i, j, |gw.listeners|);
  }

  lemma NotNamedNotTouched(env: Env, gw: Gateway, key: NamespacedName, i: nat, n: nat)
    requires n <= |gw.listeners| && forall x: nat | i <= x < n :: !Names(gw, x, key)
    ensures forall x: nat | i <= x < n :: !Touches(GatewaySource(env).item(gw, x), key)
  {
    forall x: nat | i <= x < n
      ensures !Touches(GatewaySource(env).item(gw, x), key)
    {
      TouchesIsNames(env, gw, x, key);
    }
  }

  /** A name that no listener has is left alone. */
  lemma UnrelatedSpcsUntouched(env: Env, c: Cluster<Gateway>, faults: Faults, key: NamespacedName)
    requires Clean(env, c, faults)
    requires forall i: nat | i < |c.stored.listeners| :: !Names(c.stored, i, key)
    ensures Lookup(ReconcileOnce(GatewaySource(env), c, faults).0.spcs, key) == Lookup(c.spcs, key)
  {
    CleanEntry(env, c, faults, key);
    NotNamedNotTouched(env, c.stored, key, 0, |c.stored.listeners|);
    UntouchedEntry(GatewaySource(env), c.stored, key, Lookup(c.spcs, key), 0, |c.stored.listeners|);
  }

  // ---- distinct names ------------------------------------------------------------------------

  ghost predicate DistinctSpcs(gw: Gateway) {
    forall i: nat, j: nat | i < j < |gw.listeners| ::
      SpcName(gw.name, gw.listeners[i].name) != SpcName(gw.name, gw.listeners[j].name)
  }

  lemma FullNameInjective(gwName: string, a: string, b: string)
    requires FullName(gwName, a) == FullName(gwName, b)
    ensures a == b
  {
    var prefix := "kv-gw-cert-" + gwName + "-";
    assert FullName(gwName, a)[|prefix|..] == a && FullName(gwName, b)[|prefix|..] == b;
  }

  /** Listener names are distinct in a Gateway; names that fit are not truncated, so their SPCs are distinct too. */
  lemma FittingNamesAreDistinct(gw: Gateway)
    requires forall i: nat, j: nat | i < j < |gw.listeners| :: gw.listeners[i].name != gw.listeners[j].name
    requires forall i: nat | i < |gw.listeners| :: |FullName(gw.name, gw.listeners[i].name)| <= MAX_NAME
    ensures DistinctSpcs(gw)
  {
    forall i: nat, j: nat | i < j < |gw.listeners|
      ensures SpcName(gw.name, gw.listeners[i].name) != SpcName(gw.name, gw.listeners[j].name)
    {
      if FullName(gw.name, gw.listeners[i].name) == FullName(gw.name, gw.listeners[j].name) {
        FullNameInjective(gw.name, gw.listeners[i].name, gw.listeners[j].name);
      }
    }
  }

  lemma DistinctIsLast(gw: Gateway, i: nat)
    requires DistinctSpcs(gw) && i < |gw.listeners|
    ensures LastOfName(gw, i, SpcKey(gw, gw.listeners[i]))
    ensures forall x: nat | x < i :: !Names(gw, x, SpcKey(gw, gw.listeners[i]))
  {
  }

  /** With distinct SPC names: a Key Vault listener has exactly its SPC. */
  lemma KvListenerHasItsSpc(env: Env, c: Cluster<Gateway>, faults: Faults, i: nat)
    requires Clean(env, c, faults) && DistinctSpcs(c.stored)
    requires i < |c.stored.listeners| && IsKvEnabled(c.stored.listeners[i])
    ensures var gw, key := c.stored, SpcKey(c.stored, c.stored.listeners[i]);
            var spcs := ReconcileOnce(GatewaySource(env), c, faults).0.spcs;
            && key in spcs && GatewayItem(env, gw, i).Reconcile?
            && spcs[key] == BuildSpc(Owner("Gateway", gw.name, gw.uid), GatewayItem(env, gw, i).opts)
  {
    DistinctIsLast(c.stored, i);
    KvListenerHasSpcIff(env, c, faults, i, i);
  }

  /** Any other listener: the operator's SPC of that name is gone, somebody else's is as it was. */
  lemma OtherListenerIsCleaned(env: Env, c: Cluster<Gateway>, faults: Faults, i: nat)
    requires Clean(env, c, faults) && DistinctSpcs(c.stored)
    requires i < |c.stored.listeners| && !IsKvEnabled(c.stored.listeners[i])
    ensures var key := SpcKey(c.stored, c.stored.listeners[i]);
            Lookup(ReconcileOnce(GatewaySource(env), c, faults).0.spcs, key) ==
            if key in c.spcs && !c.spcs[key].Managed() then Some(c.spcs[key]) else None
  {
    var gw, key := c.stored, SpcKey(c.stored, c.stored.listeners[i]);
    var v := Lookup(c.spcs, key);
    DistinctIsLast(gw, i);
    CleanEntry(env, c, faults, key);
    NotNamedNotTouched(env, gw, key, 0, i);
    NotNamedNotTouched(env, gw, key, i + 1, |gw.listeners|);
    OnlyCleanedUp(GatewaySource(env), gw, key, v, i, |gw.listeners|);
  }

  // ---- the Gateway itself --------------------------------------------------------------------

  /** The listener with its certificate taken from the Secret of its SPC. */
  function WithRef(gw: Gateway, l: Listener): Listener {
    if l.tls.Some? then l.(tls := Some(l.tls.value.(certRefs := [CertRef(gw.namespace, SpcName(gw.name, l.name))]))) else l
  }

  /** The Gateway with the references of its first `n` listeners set. */
  function WithRefs(env: Env, gw: Gateway, n: nat): (gw': Gateway)
    requires n <= |gw.listeners|
    ensures |gw'.listeners| == |gw.listeners|
    ensures forall i: nat | i < |gw.listeners| ::
              gw'.listeners[i] == if i < n && GatewayItem(env, gw, i).Reconcile? then WithRef(gw, gw.listeners[i])
                                  else gw.listeners[i]
  {
    gw.(listeners := seq(|gw.listeners|, i requires 0 <= i < |gw.listeners| =>
          if i < n && GatewayItem(env, gw, i).Reconcile? then WithRef(gw, gw.listeners[i]) else gw.listeners[i]))
  }

  lemma RefStep(env: Env, gw: Gateway, k: nat)
    requires k < |gw.listeners|
    ensures StepObj(GatewaySource(env), WithRefs(env, gw, k), GatewayItem(env, gw, k)) == WithRefs(env, gw, k + 1)
  {
    var x, x' := WithRefs(env, gw, k), WithRefs(env, gw, k + 1);
    var it := GatewayItem(env, gw, k);
    if it.Reconcile? {
      assert it.change == Some(SetCertRef(k, CertRef(gw.namespace, SpcName(gw.name, gw.listeners[k].name))));
      assert x.listeners[k := WithRef(gw, gw.listeners[k])] == x'.listeners;
    } else {
      assert x.listeners == x'.listeners;
    }
  }

  lemma RefsAfter(env: Env, gw: Gateway, n: nat)
    requires n <= |gw.listeners|
    ensures ObjAfter(GatewaySource(env), gw, gw, n) == WithRefs(env, gw, n)
  {
    var src := GatewaySource(env);
    var f := (k: nat) => if k <= |gw.listeners| then WithRefs(env, gw, k) else gw;
    forall k: nat | k < n
      ensures StepObj(src, f(k), src.item(gw, k)) == f(k + 1)
    {
      RefStep(env, gw, k);
    }
    NoRefs(env, gw);
    ObjAfterFollows(src, gw, f, n);
  }

  lemma NoRefs(env: Env, gw: Gateway)
    ensures WithRefs(env, gw, 0) == gw
  {
    assert WithRefs(env, gw, 0).listeners == gw.listeners;
  }

  /** The stored Gateway differs only in the certificate references of its Key Vault
      listeners, each pointing at the Secret of its own SPC. */
  lemma GatewayAfterReconcile(env: Env, c: Cluster<Gateway>, faults: Faults, i: nat)
    requires Clean(env, c, faults) && i < |c.stored.listeners|
    ensures var gw, gw' := c.stored, ReconcileOnce(GatewaySource(env), c, faults).0.stored;
            && gw'.(listeners := gw.listeners) == gw && |gw'.listeners| == |gw.listeners|
            && gw'.listeners[i] == if IsKvEnabled(gw.listeners[i]) then WithRef(gw, gw.listeners[i]) else gw.listeners[i]
  {
    var key := SpcKey(c.stored, c.stored.listeners[i]);
    CleanEntry(env, c, faults, key);
    NoFailure(env, c.stored, i);
    TouchesIsNames(env, c.stored, i, key);
    RefsAfter(env, c.stored, |c.stored.listeners|);
  }

  // ---- from options to Secrets ---------------------------------------------------------------

  /** Two Key Vault listeners ask for the same: one certificate, fetched as one client. */
  predicate AskTheSame(env: Env, gw: Gateway, i: nat, j: nat)
    requires i < |gw.listeners| && j < |gw.listeners|
  {
    var l, m := gw.listeners[i], gw.listeners[j];
    && env.parseUri(TlsOption(l, CERT_URI_OPTION)) == env.parseUri(TlsOption(m, CERT_URI_OPTION))
    && ClientIdFromListener(env, gw.namespace, l) == ClientIdFromListener(env, gw.namespace, m)
  }

  /** The SPC of a Key Vault listener is the one it asks for, exactly if the last listener
      with that SPC name is a Key Vault listener that asks for the same. */
  lemma KvListenerHasOwnSpcIff(env: Env, c: Cluster<Gateway>, faults: Faults, i: nat, j: nat)
    requires Clean(env, c, faults) && i <= j < |c.stored.listeners| && IsKvEnabled(c.stored.listeners[i])
    requires LastOfName(c.stored, j, SpcKey(c.stored, c.stored.listeners[i]))
    ensures var gw, key := c.stored, SpcKey(c.stored, c.stored.listeners[i]);
            var spcs := ReconcileOnce(GatewaySource(env), c, faults).0.spcs;
            && GatewayItem(env, gw, i).Reconcile?
            && (Lookup(spcs, key) == Some(BuildSpc(Owner("Gateway", gw.name, gw.uid), GatewayItem(env, gw, i).opts))
                <==> IsKvEnabled(gw.listeners[j]) && AskTheSame(env, gw, i, j))
  {
    var gw := c.stored;
    KvListenerHasSpcIff(env, c, faults, i, j);
    CleanEntry(env, c, faults, SpcKey(gw, gw.listeners[i]));
    NoFailure(env, gw, i);
    TouchesIsNames(env, gw, i, SpcKey(gw, gw.listeners[i]));
  }

  /** The listener refers to a Secret in its namespace into which an SPC fetches the
      certificate its URI names, from that vault, as the client its ServiceAccount names. */
  ghost predicate Served(env: Env, gw: Gateway, i: nat, c': Cluster<Gateway>)
    requires i < |gw.listeners|
  {
    var l := gw.listeners[i];
    var cert, sa := env.parseUri(TlsOption(l, CERT_URI_OPTION)), NamespacedName(gw.namespace, TlsOption(l, SERVICE_ACCOUNT_OPTION));
    && cert.Some? && HasClientId(env, sa) && i < |c'.stored.listeners| && SpcKey(gw, l) in c'.spcs
    && var spc, l' := c'.spcs[SpcKey(gw, l)], c'.stored.listeners[i];
    && spc.owner == Some(Owner("Gateway", gw.name, gw.uid))
    && spc.content.vault == cert.value.vaultName && spc.content.cert == cert.value.certName
    && spc.content.version == cert.value.objectVersion
    && spc.content.tenant == env.tenantId && spc.content.cloud == env.cloud
    && spc.content.identity == Workload(env.sas(sa).annotations[CLIENT_ID_ANNOTATION])
    && l.tls.Some? && l'.tls.Some? && l'.tls.value.certRefs == [CertRef(gw.namespace, spc.content.secret)]
    && l'.name == l.name && l'.tls.value.options == l.tls.value.options
  }

  /** A Key Vault listener is served exactly if the last listener with its SPC name is a
      Key Vault listener that asks for the same. */
  lemma ListenerIsServedIff(env: Env, c: Cluster<Gateway>, faults: Faults, i: nat, j: nat)
    requires Clean(env, c, faults) && i <= j < |c.stored.listeners| && IsKvEnabled(c.stored.listeners[i])
    requires LastOfName(c.stored, j, SpcKey(c.stored, c.stored.listeners[i]))
    ensures Served(env, c.stored, i, ReconcileOnce(GatewaySource(env), c, faults).0)
            <==> IsKvEnabled(c.stored.listeners[j]) && AskTheSame(env, c.stored, i, j)
  {
    KvListenerHasSpcIff(env, c, faults, i, j);
    KvListenerHasOwnSpcIff(env, c, faults, i, j);
    GatewayAfterReconcile(env, c, faults, i);
  }

  /** With distinct SPC names every Key Vault listener is served. */
  lemma ListenerIsServed(env: Env, c: Cluster<Gateway>, faults: Faults, i: nat)
    requires Clean(env, c, faults) && DistinctSpcs(c.stored)
    requires i < |c.stored.listeners| && IsKvEnabled(c.stored.listeners[i])
    ensures Served(env, c.stored, i, ReconcileOnce(GatewaySource(env), c, faults).0)
  {
    DistinctIsLast(c.stored, i);
    ListenerIsServedIff(env, c, faults, i, i);
  }

  /** From a well configured Gateway to served listeners, without a word on the reconcile:
      of one of the operator's classes, with distinct SPC names, and without faults. */
  lemma WellConfiguredIsServed(env: Env, c: Cluster<Gateway>)
    requires OfOurClass(c.stored) && DistinctSpcs(c.stored)
    requires forall i: nat | i < |c.stored.listeners| :: WellConfigured(env, c.stored.namespace, c.stored.listeners[i])
    ensures ReconcileOnce(GatewaySource(env), c, NO_FAULTS).1 == Done
    ensures forall i: nat | i < |c.stored.listeners| && TlsOption(c.stored.listeners[i], CERT_URI_OPTION) != "" ::
              Served(env, c.stored, i, ReconcileOnce(GatewaySource(env), c, NO_FAULTS).0)
  {
    GatewayEndsDoneIff(env, c);
    forall i: nat | i < |c.stored.listeners| && TlsOption(c.stored.listeners[i], CERT_URI_OPTION) != ""
      ensures Served(env, c.stored, i, ReconcileOnce(GatewaySource(env), c, NO_FAULTS).0)
    {
      ListenerIsServed(env, c, NO_FAULTS, i);
    }
  }

  // ---- what truncation does ------------------------------------------------------------------

  /** A Gateway name of 241 characters or more leaves no room for the listener. (At
      exactly 241 the name is cut after a dash, and no object can be called so.) */
  lemma LongNamesCollide(gwName: string, a: string, b: string)
    requires |gwName| >= 241
    ensures SpcName(gwName, a) == SpcName(gwName, b)
  {
    var common := "kv-gw-cert-" + gwName + "-";
    assert |common| >= MAX_NAME;
    assert FullName(gwName, a)[..MAX_NAME] == common[..MAX_NAME];
    assert FullName(gwName, b)[..MAX_NAME] == common[..MAX_NAME];
  }

  /** So distinct listener names are not enough: behind a long Gateway name, a Key Vault
      listener followed by a plain one ends up without its SPC, in a reconcile that
      reports success. */
  lemma TruncationLosesSpc(env: Env, c: Cluster<Gateway>, faults: Faults)
    requires Clean(env, c, faults) && |c.stored.name| >= 241 && |c.stored.listeners| == 2
    requires IsKvEnabled(c.stored.listeners[0]) && !IsKvEnabled(c.stored.listeners[1])
    ensures SpcKey(c.stored, c.stored.listeners[0]) !in ReconcileOnce(GatewaySource(env), c, faults).0.spcs
  {
    LongNamesCollide(c.stored.name, c.stored.listeners[0].name, c.stored.listeners[1].name);
    KvListenerHasSpcIff(env, c, faults, 0, 1);
  }

  /** And of two Key Vault listeners with different certificates, the first is given the
      other's: the Secret it refers to is filled with the certificate of the second. */
  lemma TruncationSwapsCertificate(env: Env, c: Cluster<Gateway>, faults: Faults)
    requires Clean(env, c, faults) && |c.stored.name| >= 242 && |c.stored.listeners| == 2
    requires IsKvEnabled(c.stored.listeners[0]) && IsKvEnabled(c.stored.listeners[1])
    requires env.parseUri(TlsOption(c.stored.listeners[0], CERT_URI_OPTION))
          != env.parseUri(TlsOption(c.stored.listeners[1], CERT_URI_OPTION))
    ensures var gw, c' := c.stored, ReconcileOnce(GatewaySource(env), c, faults).0;
            var own, other := env.parseUri(TlsOption(gw.listeners[0], CERT_URI_OPTION)),
                              env.parseUri(TlsOption(gw.listeners[1], CERT_URI_OPTION));
            && own.Some? && other.Some? && own.value != other.value
            && SpcKey(gw, gw.listeners[0]) in c'.spcs && |c'.stored.listeners| == 2
            && var content, l' := c'.spcs[SpcKey(gw, gw.listeners[0])].content, c'.stored.listeners[0];
            && l'.tls.Some? && l'.tls.value.certRefs == [CertRef(gw.namespace, content.secret)]
            && KvCert(content.vault, content.cert, content.version) == other.value
            && !Served(env, gw, 0, c')
  {
    var gw := c.stored;
    LongNamesCollide(gw.name, gw.listeners[0].name, gw.listeners[1].name);
    KvListenerHasSpcIff(env, c, faults, 0, 1);
    KvListenerHasOwnSpcIff(env, c, faults, 0, 1);
    ListenerIsServedIff(env, c, faults, 0, 1);
    GatewayAfterReconcile(env, c, faults, 0);
  }
}
