/** The placeholder-pod controller looks at the same Gateway from the SPC's side.
    Its decisions have to match those of the SPC iterator. */
module PlaceholderPod {
  import opened Wrappers
  import opened SpcReconcile
  import opened SpcGateway
  import opened GatewayOutcome

  /** Index of the first listener with this SPC name from `i` on; the number of listeners if there is none. */
  function FirstMatch(gw: Gateway, spcName: string, i: nat): (j: nat)
    requires i <= |gw.listeners|
    ensures i <= j <= |gw.listeners|
    ensures j < |gw.listeners| ==> Matches(gw, j, spcName)
    ensures forall x: nat | i <= x < j :: !Matches(gw, x, spcName)
    decreases |gw.listeners| - i
  {
    if i == |gw.listeners| || Matches(gw, i, spcName) then i else FirstMatch(gw, spcName, i + 1)
  }

  /** Keep the Deployment of this SPC? */
  predicate Keeps(gw: Gateway, spcName: string) {
    var j := FirstMatch(gw, spcName, 0);
    IsManaged(gw) && j < |gw.listeners| && IsKvEnabled(gw.listeners[j])
  }

  /** The early-exit loop of `shouldReconcile`. */
  method ShouldReconcile(gw: Gateway, spcName: string) returns (keep: bool)
    ensures keep == Keeps(gw, spcName)
  {
    if !IsManaged(gw) {
      return false;
    }
    for i := 0 to |gw.listeners|
      invariant FirstMatch(gw, spcName, 0) == FirstMatch(gw, spcName, i)
    {
      if SpcName(gw.name, gw.listeners[i].name) == spcName {
        return IsKvEnabled(gw.listeners[i]);
      }
    }
    return false;
  }

  /** The ServiceAccount the loop of `getServiceAccountName` is left with: the one of the
      last matching listener that has TLS options. */
  function LastServiceAccount(gw: Gateway, spcName: string, n: nat): string
    requires n <= |gw.listeners|
  {
    if n == 0 then ""
    else if Matches(gw, n - 1, spcName) && HasOptions(gw.listeners[n - 1]) then ServiceAccountOf(gw.listeners[n - 1])
    else LastServiceAccount(gw, spcName, n - 1)
  }

  method GetServiceAccountName(env: Env, gw: Gateway, spcName: string) returns (r: Result<string, Error>)
    ensures var sa := LastServiceAccount(gw, spcName, |gw.listeners|);
            r == if sa == "" then Err(UserError)
                 else match ClientIdOf(env, NamespacedName(gw.namespace, sa)) case Err(e) => Err(e) case Ok(_) => Ok(sa)
  {
    var sa := "";
    for i := 0 to |gw.listeners|
      invariant sa == LastServiceAccount(gw, spcName, i)
    {
      if SpcName(gw.name, gw.listeners[i].name) == spcName && HasOptions(gw.listeners[i]) {
        sa := ServiceAccountOf(gw.listeners[i]);
      }
    }
    if sa == "" {
      return Err(UserError);
    }
    match ClientIdOf(env, NamespacedName(gw.namespace, sa)) {
      case Err(e) => return Err(e);
      case Ok(_) => return Ok(sa);
    }
  }

  // ---- the two controllers agree -------------------------------------------------------------

  /** On a listener's SPC the two controllers take the same decision exactly when the
      first listener with that SPC name is of the same sort as this one. */
  lemma DecisionsAgreeIff(env: Env, gw: Gateway, i: nat)
    requires IsManaged(gw) && i < |gw.listeners|
    ensures var name := SpcName(gw.name, gw.listeners[i].name);
            var first := FirstMatch(gw, name, 0);
            && first <= i
            && ((Keeps(gw, name) <==> !GatewayItem(env, gw, i).Cleanup?)
                <==> IsKvEnabled(gw.listeners[first]) == IsKvEnabled(gw.listeners[i]))
  {
    var name := SpcName(gw.name, gw.listeners[i].name);
    assert Matches(gw, i, name);
    TouchesIsNames(env, gw, i, SpcKey(gw, gw.listeners[i]));
  }

  /** With distinct SPC names: a Deployment is kept exactly when the iterator does not
      yield cleanup for that listener. */
  lemma DecisionsAgree(env: Env, gw: Gateway, i: nat)
    requires IsManaged(gw) && DistinctSpcs(gw) && i < |gw.listeners|
    ensures Keeps(gw, SpcName(gw.name, gw.listeners[i].name)) <==> !GatewayItem(env, gw, i).Cleanup?
  {
    var name := SpcName(gw.name, gw.listeners[i].name);
    assert Matches(gw, i, name);
    assert FirstMatch(gw, name, 0) == i;
    DecisionsAgreeIff(env, gw, i);
  }

  /** After a reconcile of the SPCs the pod is kept exactly for the SPCs that are there,
      if and only if the first and the last listener of that SPC name are of one
      sort: the pod controller goes by the first, the SPC is left by the last. */
  lemma OutcomesAgreeIff(env: Env, c: Cluster<Gateway>, faults: Faults, name: string, last: nat)
    requires Clean(env, c, faults) && LastOfName(c.stored, last, NamespacedName(c.stored.namespace, name))
    ensures var gw, key := c.stored, NamespacedName(c.stored.namespace, name);
            var first := FirstMatch(gw, name, 0);
            var spcs := ReconcileOnce(GatewaySource(env), c, faults).0.spcs;
            && first <= last
            && (HasSpc(spcs, key) <==> IsKvEnabled(gw.listeners[last]))
            && (Keeps(gw, name) <==> IsKvEnabled(gw.listeners[first]))
            && ((HasSpc(spcs, key) <==> Keeps(gw, name))
                <==> (IsKvEnabled(gw.listeners[first]) <==> IsKvEnabled(gw.listeners[last])))
  {
    var gw, key := c.stored, NamespacedName(c.stored.namespace, name);
    assert Matches(gw, last, name);
    CleanEntry(env, c, faults, key);
    NoFailure(env, gw, last);
    TouchesIsNames(env, gw, last, key);
    NotNamedNotTouched(env, gw, key, last + 1, |gw.listeners|);
    LastTouchPresent(GatewaySource(env), gw, key, Lookup(c.spcs, key), last, |gw.listeners|);
  }

  /** With distinct SPC names every SPC of a listener has its pod, and no other listener has either. */
  lemma OutcomesAgree(env: Env, c: Cluster<Gateway>, faults: Faults, i: nat)
    requires Clean(env, c, faults) && DistinctSpcs(c.stored) && i < |c.stored.listeners|
    ensures var key := SpcKey(c.stored, c.stored.listeners[i]);
            HasSpc(ReconcileOnce(GatewaySource(env), c, faults).0.spcs, key) <==> Keeps(c.stored, key.name)
  {
    var gw := c.stored;
    DistinctIsLast(gw, i);
    assert Matches(gw, i, SpcName(gw.name, gw.listeners[i].name));
    assert FirstMatch(gw, SpcName(gw.name, gw.listeners[i].name), 0) == i;
    OutcomesAgreeIff(env, c, faults, SpcName(gw.name, gw.listeners[i].name), i);
  }

  /** Where they disagree: behind a long Gateway name a plain listener hides the Key
      Vault listener after it. The SPC is written, and its pod is taken away. */
  lemma TruncationLosesPod(env: Env, c: Cluster<Gateway>, faults: Faults)
    requires Clean(env, c, faults) && |c.stored.name| >= 242 && |c.stored.listeners| == 2
    requires !IsKvEnabled(c.stored.listeners[0]) && IsKvEnabled(c.stored.listeners[1])
    ensures var key := SpcKey(c.stored, c.stored.listeners[1]);
            && HasSpc(ReconcileOnce(GatewaySource(env), c, faults).0.spcs, key)
            && GatewayItem(env, c.stored, 1).Reconcile?
            && !Keeps(c.stored, key.name)
  {
    var gw := c.stored;
    LongNamesCollide(gw.name, gw.listeners[0].name, gw.listeners[1].name);
    assert Matches(gw, 0, SpcName(gw.name, gw.listeners[1].name));
    OutcomesAgreeIff(env, c, faults, SpcName(gw.name, gw.listeners[1].name), 1);
    CleanEntry(env, c, faults, SpcKey(gw, gw.listeners[1]));
    NoFailure(env, gw, 1);
    TouchesIsNames(env, gw, 1, SpcKey(gw, gw.listeners[1]));
  }

  /** A Gateway that is given another class: its SPCs stay, all its pods go. */
  lemma UnmanagedLosesPods(env: Env, c: Cluster<Gateway>, faults: Faults, name: string)
    requires !IsManaged(c.stored)
    ensures ReconcileOnce(GatewaySource(env), c, faults) == (c, Done)
    ensures !Keeps(c.stored, name)
  {
  }

  lemma {:induction false} LastServiceAccountOf(gw: Gateway, name: string, i: nat, n: nat)
    requires i < n <= |gw.listeners| && Matches(gw, i, name) && HasOptions(gw.listeners[i])
    requires forall x: nat | i < x < n :: !Matches(gw, x, name)
    ensures LastServiceAccount(gw, name, n) == ServiceAccountOf(gw.listeners[i])
  {
    if i == n - 1 {
    } else {
      LastServiceAccountOf(gw, name, i, n - 1);
    }
  }

  /** The pod runs under the ServiceAccount whose client id the SPC was built with: both
      go by the last listener of the SPC's name, whatever other listeners share it. */
  lemma PodUsesTheSpcsIdentity(env: Env, gw: Gateway, i: nat)
    requires i < |gw.listeners| && LastOfName(gw, i, SpcKey(gw, gw.listeners[i])) && GatewayItem(env, gw, i).Reconcile?
    ensures var sa := LastServiceAccount(gw, SpcName(gw.name, gw.listeners[i].name), |gw.listeners|);
            && sa != ""
            && ClientIdOf(env, NamespacedName(gw.namespace, sa)) == Ok(GatewayItem(env, gw, i).opts.clientId)
  {
    var name := SpcName(gw.name, gw.listeners[i].name);
    forall x: nat | i < x < |gw.listeners|
      ensures !Matches(gw, x, name)
    {
      assert !Names(gw, x, SpcKey(gw, gw.listeners[i]));
    }
    LastServiceAccountOf(gw, name, i, |gw.listeners|);
  }
}
