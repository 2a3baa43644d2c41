/** SPCs are named after their owners, and owners do not look whose SPC they write: when
    the reconcile of one Gateway or Ingress leaves the SPC of another alone. */
module SpcInterference {
  import opened Wrappers
  import opened SpcReconcile
  import opened SpcGateway
  import opened GatewayOutcome
  import I = SpcIngress

  // ---- Gateways ------------------------------------------------------------------------------

  lemma {:induction false} LastNaming(gw: Gateway, key: NamespacedName, i: nat) returns (j: nat)
    requires i < |gw.listeners| && Names(gw, i, key)
    ensures i <= j && LastOfName(gw, j, key)
    decreases |gw.listeners| - i
  {
    if forall x: nat | i < x < |gw.listeners| :: !Names(gw, x, key) {
      j := i;
    } else {
      var x: nat :| i < x < |gw.listeners| && Names(gw, x, key);
      j := LastNaming(gw, key, x);
    }
  }

  lemma NamedIsTaken(env: Env, c: Cluster<Gateway>, faults: Faults, key: NamespacedName, j: nat)
    requires Clean(env, c, faults) && LastOfName(c.stored, j, key)
    ensures var w := Lookup(ReconcileOnce(GatewaySource(env), c, faults).0.spcs, key);
            w.Some? && w.value.Managed() ==> w.value.owner == Some(Owner("Gateway", c.stored.name, c.stored.uid))
  {
    var gw, src, v, n := c.stored, GatewaySource(env), Lookup(c.spcs, key), |c.stored.listeners|;
    CleanEntry(env, c, faults, key);
    NoFailure(env, gw, j);
    TouchesIsNames(env, gw, j, key);
    NotNamedNotTouched(env, gw, key, j + 1, n);
    LastTouchPresent(src, gw, key, v, j, n);
    UntouchedEntry(src, gw, key, v, j + 1, n);
  }

  /** A reconcile of a Gateway leaves an SPC of the operator that is owned by somebody
      else as it is, exactly if none of its listeners has that SPC name. */
  lemma LeavesForeignSpcIff(env: Env, c: Cluster<Gateway>, faults: Faults, key: NamespacedName)
    requires Clean(env, c, faults) && key in c.spcs && c.spcs[key].Managed()
    requires c.spcs[key].owner != Some(Owner("Gateway", c.stored.name, c.stored.uid))
    ensures Lookup(ReconcileOnce(GatewaySource(env), c, faults).0.spcs, key) == Some(c.spcs[key])
            <==> forall i: nat | i < |c.stored.listeners| :: !Names(c.stored, i, key)
  {
    if i: nat :| i < |c.stored.listeners| && Names(c.stored, i, key) {
      var j := LastNaming(c.stored, key, i);
      NamedIsTaken(env, c, faults, key, j);
    } else {
      UnrelatedSpcsUntouched(env, c, faults, key);
    }
  }

  /** Names that fit meet exactly if Gateway and listener read the same together: the dash
      between them can be anywhere. */
  lemma FittingNamesMeetIff(g: string, l: string, g': string, l': string)
    requires |FullName(g, l)| <= MAX_NAME && |FullName(g', l')| <= MAX_NAME
    ensures SpcName(g, l) == SpcName(g', l') <==> g + "-" + l == g' + "-" + l'
  {
    var prefix := "kv-gw-cert-";
    assert FullName(g, l) == prefix + (g + "-" + l) && FullName(g', l') == prefix + (g' + "-" + l');
    assert (prefix + (g + "-" + l))[|prefix|..] == g + "-" + l;
    assert (prefix + (g' + "-" + l'))[|prefix|..] == g' + "-" + l';
  }

  lemma DashesMeet(g: string, m: string, l: string)
    ensures SpcName(g, m + "-" + l) == SpcName(g + "-" + m, l)
  {
    assert FullName(g, m + "-" + l) == FullName(g + "-" + m, l);
  }

  /** So without any cut name, a Gateway `g` with a listener `m-l` loses its SPC to a
      Gateway `g-m` with a listener `l` in the same namespace: each takes it from the other. */
  lemma NeighbourTakesSpc(env: Env, c: Cluster<Gateway>, d: Cluster<Gateway>, faults: Faults, faults': Faults,
                          i: nat, j: nat, m: string, l: string)
    requires Clean(env, c, faults) && i < |c.stored.listeners| && c.stored.listeners[i].name == m + "-" + l
    requires DistinctSpcs(c.stored) && IsKvEnabled(c.stored.listeners[i])
    requires Clean(env, d, faults') && j < |d.stored.listeners| && d.stored.listeners[j].name == l
    requires DistinctSpcs(d.stored) && IsKvEnabled(d.stored.listeners[j])
    requires d.stored.name == c.stored.name + "-" + m && d.stored.namespace == c.stored.namespace
    requires d.spcs == ReconcileOnce(GatewaySource(env), c, faults).0.spcs
    ensures var key := SpcKey(c.stored, c.stored.listeners[i]);
            var spcs := ReconcileOnce(GatewaySource(env), d, faults').0.spcs;
            && key in d.spcs && d.spcs[key].owner == Some(Owner("Gateway", c.stored.name, c.stored.uid))
            && key in spcs && spcs[key].owner == Some(Owner("Gateway", d.stored.name, d.stored.uid))
  {
    DashesMeet(c.stored.name, m, l);
    KvListenerHasItsSpc(env, c, faults, i);
    KvListenerHasItsSpc(env, d, faults', j);
  }

  // ---- Ingresses -----------------------------------------------------------------------------

  /** The SPC names of two Ingresses meet exactly if their names do, or agree in the 244
      characters that are left of longer ones. */
  lemma IngressNamesMeetIff(a: I.Ingress, b: I.Ingress)
    ensures I.SpcName(a) == I.SpcName(b) <==>
            a.name == b.name || (|a.name| >= 244 && |b.name| >= 244 && a.name[..244] == b.name[..244])
  {
    var prefix := "keyvault-";
    assert (prefix + a.name)[|prefix|..] == a.name && (prefix + b.name)[|prefix|..] == b.name;
    if |a.name| >= 244 {
      assert I.SpcName(a) == prefix + a.name[..244];
      assert I.SpcName(a)[|prefix|..] == a.name[..244];
    }
    if |b.name| >= 244 {
      assert I.SpcName(b) == prefix + b.name[..244];
      assert I.SpcName(b)[|prefix|..] == b.name[..244];
    }
  }

  /** A reconcile of an Ingress leaves an SPC of the operator that is owned by somebody
      else as it is, exactly if it is not the one named after this Ingress. */
  lemma IngressLeavesForeignSpcIff(env: I.Env, c: Cluster<I.Ingress>, faults: Faults, key: NamespacedName)
    requires ReconcileOnce(I.IngressSource(env), c, faults).1.Done?
    requires key in c.spcs && c.spcs[key].Managed()
    requires c.spcs[key].owner != Some(Owner("Ingress", c.stored.name, c.stored.uid))
    ensures Lookup(ReconcileOnce(I.IngressSource(env), c, faults).0.spcs, key) == Some(c.spcs[key])
            <==> key != NamespacedName(c.stored.namespace, I.SpcName(c.stored))
  {
    I.IngressOutcome(env, c, faults, key);
  }
}
