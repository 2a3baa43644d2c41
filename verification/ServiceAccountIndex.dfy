/** The index that decides which Gateways a ServiceAccount event wakes up. It is
    complete: a Gateway it leaves out yields the same whatever happens to that
    ServiceAccount. */
module ServiceAccountIndex {
  import opened SpcReconcile
  import opened SpcGateway

  /** The listener mentions this ServiceAccount, empty names included. */
  predicate Mentions(l: Listener, sa: string) {
    && HasOptions(l) && SERVICE_ACCOUNT_OPTION in l.tls.value.options.value
    && l.tls.value.options.value[SERVICE_ACCOUNT_OPTION] == sa
  }

  predicate Indexed(gw: Gateway, sa: string) {
    exists l | l in gw.listeners :: Mentions(l, sa)
  }

  /** The index function: fills a set over the listeners. */
  method IndexKeys(gw: Gateway) returns (keys: set<string>)
    ensures forall sa :: sa in keys <==> Indexed(gw, sa)
  {
    keys := {};
    for i := 0 to |gw.listeners|
      invariant forall sa :: sa in keys <==> exists j | 0 <= j < i :: Mentions(gw.listeners[j], sa)
    {
      var l := gw.listeners[i];
      if HasOptions(l) && SERVICE_ACCOUNT_OPTION in l.tls.value.options.value {
        keys := keys + {l.tls.value.options.value[SERVICE_ACCOUNT_OPTION]};
      }
    }
  }

  /** The Gateway is among those the getter asks to reconcile for this ServiceAccount. */
  predicate Woken(gw: Gateway, sa: NamespacedName) {
    gw.namespace == sa.namespace && Indexed(gw, sa.name)
  }

  /** The getter: one request per Gateway the index lists for the ServiceAccount. */
  method GatewaysFor(gws: seq<Gateway>, sa: NamespacedName) returns (reqs: seq<NamespacedName>)
    ensures forall k :: k in reqs <==>
              exists gw | gw in gws ::
                && gw.namespace == sa.namespace && Indexed(gw, sa.name)
                && NamespacedName(gw.namespace, gw.name) == k
  {
    reqs := [];
    for i := 0 to |gws|
      invariant forall k :: k in reqs <==>
                  exists j | 0 <= j < i :: Woken(gws[j], sa) && NamespacedName(gws[j].namespace, gws[j].name) == k
    {
      var keys := IndexKeys(gws[i]);
      if gws[i].namespace == sa.namespace && sa.name in keys {
        reqs := reqs + [NamespacedName(gws[i].namespace, gws[i].name)];
      }
    }
  }

  /** The two environments differ at most in one ServiceAccount. */
  ghost predicate SameBut(e: Env, e': Env, sa: NamespacedName) {
    && e'.tenantId == e.tenantId && e'.cloud == e.cloud && e'.parseUri == e.parseUri
    && forall k | k != sa :: e'.sas(k) == e.sas(k)
  }

  lemma ItemUnaffected(e: Env, e': Env, gw: Gateway, sa: NamespacedName, i: nat)
    requires SameBut(e, e', sa) && !Woken(gw, sa) && i < |gw.listeners|
    ensures ListenerItem(e', gw, i) == ListenerItem(e, gw, i)
  {
    var l := gw.listeners[i];
    if IsKvEnabled(l) && ServiceAccountOf(l) != "" {
      assert Mentions(l, ServiceAccountOf(l));
      assert NamespacedName(gw.namespace, ServiceAccountOf(l)) != sa;
    }
  }

  /** Completeness: if the Gateway is not woken for a ServiceAccount, then any change,
      creation or deletion of it leaves everything the iterator yields unchanged. */
  lemma IndexComplete(e: Env, e': Env, gw: Gateway, sa: NamespacedName)
    requires SameBut(e, e', sa) && !Woken(gw, sa)
    ensures Yields(e', gw) == Yields(e, gw)
  {
    forall i: nat | i < |Yields(e, gw)|
      ensures Yields(e', gw)[i] == Yields(e, gw)[i]
    {
      ItemUnaffected(e, e', gw, sa, i);
    }
  }

  /** The Gateway reads this ServiceAccount when it is reconciled. */
  ghost predicate Reads(gw: Gateway, sa: NamespacedName) {
    && IsManaged(gw) && gw.namespace == sa.namespace && sa.name != ""
    && exists i: nat | i < |gw.listeners| :: IsKvEnabled(gw.listeners[i]) && ServiceAccountOf(gw.listeners[i]) == sa.name
  }

  function WithSa(e: Env, sa: NamespacedName, r: SaReading): Env {
    e.(sas := k => if k == sa then r else e.sas(k))
  }

  /** The exact dependency: what is yielded depends on a ServiceAccount if and only if
      a Key Vault listener of the managed Gateway names it. The index contains
      those and possibly more. */
  lemma DependsIffReads(e: Env, gw: Gateway, sa: NamespacedName)
    ensures (exists r, r' :: Yields(WithSa(e, sa, r), gw) != Yields(WithSa(e, sa, r'), gw)) <==> Reads(gw, sa)
    ensures Reads(gw, sa) ==> Woken(gw, sa)
  {
    if Reads(gw, sa) {
      var i: nat :| i < |gw.listeners| && IsKvEnabled(gw.listeners[i]) && ServiceAccountOf(gw.listeners[i]) == sa.name;
      assert Mentions(gw.listeners[i], sa.name);
      var a, b := WithSa(e, sa, Missing), WithSa(e, sa, Unreadable);
      assert Yields(a, gw)[i] == Failure(UserError) && Yields(b, gw)[i] == Failure(OtherError);
      assert Yields(WithSa(e, sa, Missing), gw) != Yields(WithSa(e, sa, Unreadable), gw);
    } else {
      forall r, r'
        ensures Yields(WithSa(e, sa, r), gw) == Yields(WithSa(e, sa, r'), gw)
      {
        NotReadMeansSame(WithSa(e, sa, r), WithSa(e, sa, r'), gw, sa);
      }
    }
  }

  lemma NotReadMeansSame(e: Env, e': Env, gw: Gateway, sa: NamespacedName)
    requires SameBut(e, e', sa) && !Reads(gw, sa)
    ensures Yields(e', gw) == Yields(e, gw)
  {
    forall i: nat | i < |Yields(e, gw)|
      ensures Yields(e', gw)[i] == Yields(e, gw)[i]
    {
      var l := gw.listeners[i];
      if IsKvEnabled(l) && ServiceAccountOf(l) != "" {
        assert NamespacedName(gw.namespace, ServiceAccountOf(l)) != sa;
      }
    }
  }
}
