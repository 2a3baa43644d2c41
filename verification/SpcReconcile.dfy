/** The generic SecretProviderClass reconcile: a loop over what an object's
    iterator yields, which writes the cluster and changes the object it iterates
    over, and writes the object back at the end. Proved once for every iterator
    whose modifications do not disturb it. */
module SpcReconcile {
  import opened Wrappers
  import M = NginxManifests

  datatype NamespacedName = NamespacedName(namespace: string, name: string)

  /** How the SPC authenticates: workload identity, or the identity of the VM. */
  datatype Identity = Workload(clientId: string) | Vm(clientId: string)

  /** The content `buildSpc` derives from the options; `version` and `cloud` are left out when "". */
  datatype Content = Content(vault: string, tenant: string, cert: string, version: string,
                             identity: Identity, cloud: string, secret: string)

  datatype Owner = Owner(kind: string, name: string, uid: string)

  datatype Spc = Spc(labels: map<string, string>, owner: Option<Owner>, content: Content) {
    predicate Managed() {
      M.HasTopLevelLabels(labels)
    }
  }

  type Spcs = map<NamespacedName, Spc>

  /** The operator's SPC of this name is there. */
  predicate HasSpc(spcs: Spcs, key: NamespacedName) {
    key in spcs && spcs[key].Managed()
  }

  datatype Error = UserError | OtherError

  /** The options of a SPC that is to exist. */
  datatype Opts = Opts(key: NamespacedName, clientId: string, tenantId: string, vaultName: string, certName: string,
                       objectVersion: string, secretName: string, cloud: string, workloadIdentity: bool)

  /** One pair the iterator yields; `change` names the change to the owning object. */
  datatype Item<+C> = Failure(err: Error) | Cleanup(key: NamespacedName) | Reconcile(opts: Opts, change: Option<C>)

  /** An object type with its iterator: the items are computed one at a time from
      the object as it then is. The number of items is fixed when the loop starts. */
  datatype Source<!O, !C> = Source(count: O -> nat, item: (O, nat) -> Item<C>, apply: (O, C) -> O, owner: O -> Owner)

  function BuildSpc(owner: Owner, o: Opts): (s: Spc)
    ensures s.Managed()
  {
    Spc(M.TopLevelLabels(), Some(owner),
        Content(o.vaultName, o.tenantId, o.certName, o.objectVersion,
                if o.workloadIdentity then Workload(o.clientId) else Vm(o.clientId), o.cloud, o.secretName))
  }

  /** `cleanupSpc`: only what carries the operator's labels is deleted. Its read of the
      SPC is taken to be current. */
  function CleanupSpc(spcs: Spcs, key: NamespacedName): Spcs {
    if HasSpc(spcs, key) then spcs - {key} else spcs
  }

  // ---- the reconcile as a function -----------------------------------------------------------

  /** A write may also take effect and still be answered with an error. */
  datatype WriteFault = NoFault | Refused | AnswerLost

  datatype UpdateFault = Fine | Conflict | UpdateError(applied: bool)

  /** What goes wrong: the write for an item, or the update of the owner. */
  datatype Faults = Faults(write: nat -> WriteFault, update: UpdateFault)

  const NO_FAULTS := Faults(i => NoFault, Fine)

  datatype Ending = Done | InvalidInput | Requeue | Failed

  /** Where the loop stands: the SPCs, the object in memory, and whether modifyOwner ran. */
  datatype Progress<O> = Progress(spcs: Spcs, obj: O, modified: bool)

  function StepSpcs<O, C>(src: Source<O, C>, spcs: Spcs, obj: O, it: Item<C>): Spcs {
    match it
    case Failure(_) => spcs
    case Cleanup(key) => CleanupSpc(spcs, key)
    case Reconcile(opts, _) => spcs[opts.key := BuildSpc(src.owner(obj), opts)]
  }

  function StepObj<O, C>(src: Source<O, C>, obj: O, it: Item<C>): O {
    if it.Reconcile? && it.change.Some? then src.apply(obj, it.change.value) else obj
  }

  function Step<O, C>(src: Source<O, C>, p: Progress<O>, it: Item<C>): Progress<O> {
    Progress(StepSpcs(src, p.spcs, p.obj, it), StepObj(src, p.obj, it), p.modified || (it.Reconcile? && it.change.Some?))
  }

  /** How item `i` ends the loop, if it does. */
  function Stops<C>(it: Item<C>, faults: Faults, i: nat): Option<Ending> {
    match it
    case Failure(UserError) => Some(InvalidInput)
    case Failure(OtherError) => Some(Failed)
    case _ => if faults.write(i).NoFault? then None else Some(Failed)
  }

  /** Where the loop stands when item `i` ends it. */
  function Cut<O, C>(src: Source<O, C>, p: Progress<O>, it: Item<C>, faults: Faults, i: nat): Progress<O> {
    if faults.write(i).AnswerLost? then p.(spcs := StepSpcs(src, p.spcs, p.obj, it)) else p
  }

  /** The loop from item `i` to item `n`. */
  function Loop<O, C>(src: Source<O, C>, p: Progress<O>, i: nat, n: nat, faults: Faults): (Progress<O>, Ending)
    decreases n - i
  {
    if i >= n then (p, Done)
    else
      var it := src.item(p.obj, i);
      var stop := Stops(it, faults, i);
      if stop.Some? then (Cut(src, p, it, faults, i), stop.value) else Loop(src, Step(src, p, it), i + 1, n, faults)
  }

  /** The state of the API server as far as this reconciler sees it; `updates` counts
      the updates of the owning object it has asked for. */
  datatype Cluster<O> = Cluster(spcs: Spcs, stored: O, updates: nat)

  function ReconcileOnce<O(==), C>(src: Source<O, C>, c: Cluster<O>, faults: Faults): (Cluster<O>, Ending) {
    var (p, ending) := Loop(src, Progress(c.spcs, c.stored, false), 0, src.count(c.stored), faults);
    if ending.Done? && p.modified && p.obj != c.stored then
      match faults.update
      case Fine => (Cluster(p.spcs, p.obj, c.updates + 1), Done)
      case Conflict => (Cluster(p.spcs, c.stored, c.updates + 1), Requeue)
      case UpdateError(applied) => (Cluster(p.spcs, if applied then p.obj else c.stored, c.updates + 1), Failed)
    else (Cluster(p.spcs, c.stored, c.updates), ending)
  }

  // ---- the reconciler ------------------------------------------------------------------------

  class Api<O(==)> {
    var spcs: Spcs
    var stored: O
    var updates: nat

    ghost function Value(): Cluster<O>
      reads this
    {
      Cluster(spcs, stored, updates)
    }

    constructor (spcs: Spcs, stored: O)
      ensures Value() == Cluster(spcs, stored, 0)
    {
      this.spcs, this.stored, this.updates := spcs, stored, 0;
    }

    /** The loop of `Reconcile`: `obj` is iterated over and modified on the way. */
    method Reconcile<C>(src: Source<O, C>, faults: Faults) returns (ending: Ending)
      modifies this
      ensures (Value(), ending) == ReconcileOnce(src, old(Value()), faults)
    {
      var obj, original := stored, stored;
      var objUpdated := false;
      var i, n := 0, src.count(obj);
      while i < n
        invariant i <= n && stored == old(stored) && updates == old(updates)
        invariant Loop(src, Progress(spcs, obj, objUpdated), i, n, faults)
               == Loop(src, Progress(old(spcs), old(stored), false), 0, src.count(old(stored)), faults)
        decreases n - i
      {
        var it := src.item(obj, i);
        match it {
          case Failure(err) =>
            return if err == UserError then InvalidInput else Failed;
          case Cleanup(key) =>
            if !faults.write(i).Refused? && key in spcs && spcs[key].Managed() {
              spcs := spcs - {key};
            }
            if !faults.write(i).NoFault? {
              return Failed;
            }
          case Reconcile(opts, change) =>
            if !faults.write(i).Refused? {
              spcs := spcs[opts.key := BuildSpc(src.owner(obj), opts)];
            }
            if !faults.write(i).NoFault? {
              return Failed;
            }
            if change.Some? {
              obj := src.apply(obj, change.value);
              objUpdated := true;
            }
        }
        i := i + 1;
      }
      if objUpdated && original != obj {
        updates := updates + 1;
        match faults.update {
          case Conflict => return Requeue;
          case UpdateError(applied) =>
            if applied {
              stored := obj;
            }
            return Failed;
          case Fine => stored := obj;
        }
      }
      return Done;
    }
  }

  // ---- iterators that survive their own modifications ------------------------------------------

  predicate Stable<O(==), C>(src: Source<O, C>, obj: O, m: C) {
    src.apply(obj, m) == obj
  }

  /** Changing the object changes neither what is yielded nor who owns it. */
  ghost predicate Undisturbed<O(!new), C(!new)>(src: Source<O, C>) {
    && (forall o, m :: SameYield(src, o, src.apply(o, m)))
  }

  ghost predicate SameYield<O, C>(src: Source<O, C>, o: O, o': O) {
    src.count(o') == src.count(o) && src.owner(o') == src.owner(o) && forall i :: src.item(o', i) == src.item(o, i)
  }

  /** A modification, once made, is still in place after itself and after any later item's. */
  ghost predicate Settles<O(!new), C(!new)>(src: Source<O, C>) {
    && (forall o, m :: Stable(src, src.apply(o, m), m))
    && (forall o: O, i: nat, j: nat, o' | i < j && Modifies(src, o, i) && Modifies(src, o, j)
                              && Stable(src, o', src.item(o, i).change.value) ::
          Stable(src, src.apply(o', src.item(o, j).change.value), src.item(o, i).change.value))
  }

  predicate Modifies<O, C>(src: Source<O, C>, o: O, i: nat) {
    src.item(o, i).Reconcile? && src.item(o, i).change.Some?
  }

  // ---- the loop, item by item ----------------------------------------------------------------

  /** What the first `n` items of an object do, all read from one and the same copy `o` of it. */
  function SpcsAfter<O, C>(src: Source<O, C>, o: O, spcs: Spcs, n: nat): Spcs {
    if n == 0 then spcs else StepSpcs(src, SpcsAfter(src, o, spcs, n - 1), o, src.item(o, n - 1))
  }

  function ObjAfter<O, C>(src: Source<O, C>, o: O, o': O, n: nat): O {
    if n == 0 then o' else StepObj(src, ObjAfter(src, o, o', n - 1), src.item(o, n - 1))
  }

  predicate Modified<O, C>(src: Source<O, C>, o: O, n: nat) {
    n > 0 && (Modified(src, o, n - 1) || Modifies(src, o, n - 1))
  }

  function ProgressAt<O, C>(src: Source<O, C>, o: O, spcs: Spcs, o': O, n: nat): Progress<O> {
    Progress(SpcsAfter(src, o, spcs, n), ObjAfter(src, o, o', n), Modified(src, o, n))
  }

  lemma {:induction false} ObjAfterFollows<O, C>(src: Source<O, C>, o: O, f: nat -> O, n: nat)
    requires f(0) == o && forall k: nat | k < n :: StepObj(src, f(k), src.item(o, k)) == f(k + 1)
    ensures ObjAfter(src, o, o, n) == f(n)
  {
    if n == 0 {
    } else {
      ObjAfterFollows(src, o, f, n - 1);
    }
  }

  /** None of the first `n` items ends the loop. */
  ghost predicate RunsThrough<O, C>(src: Source<O, C>, o: O, faults: Faults, n: nat) {
    forall i: nat | i < n :: Stops(src.item(o, i), faults, i) == None
  }

  lemma {:induction false} YieldSurvives<O(!new), C(!new)>(src: Source<O, C>, o: O, o': O, n: nat)
    requires Undisturbed(src) && SameYield(src, o, o')
    ensures SameYield(src, o, ObjAfter(src, o, o', n))
  {
    if n == 0 {
    } else {
      YieldSurvives(src, o, o', n - 1);
      var x := ObjAfter(src, o, o', n - 1);
      var it := src.item(o, n - 1);
      if it.Reconcile? && it.change.Some? {
        assert SameYield(src, x, src.apply(x, it.change.value));
      }
    }
  }

  /** The same when item `k` of `n` ends the loop. */
  function CutAt<O, C>(src: Source<O, C>, o: O, spcs: Spcs, o': O, k: nat, n: nat, faults: Faults): Progress<O> {
    var p := ProgressAt(src, o, spcs, o', k);
    if k < n && faults.write(k).AnswerLost? then p.(spcs := SpcsAfter(src, o, spcs, k + 1)) else p
  }

  /** The loop, though it changes the object under its iterator, does what the items
      of the original say, up to the first that ends it. */
  lemma {:induction false} LoopFollowsItems<O(!new), C(!new)>(src: Source<O, C>, o: O, spcs: Spcs, o': O,
                                                              i: nat, n: nat, faults: Faults)
    returns (k: nat)
    requires Undisturbed(src) && SameYield(src, o, o') && i <= n && RunsThrough(src, o, faults, i)
    ensures k <= n && RunsThrough(src, o, faults, k)
    ensures k < n ==> Stops(src.item(o, k), faults, k).Some?
    ensures Loop(src, ProgressAt(src, o, spcs, o', i), i, n, faults)
         == (CutAt(src, o, spcs, o', k, n, faults), if k < n then Stops(src.item(o, k), faults, k).value else Done)
    decreases n - i
  {
    var p := ProgressAt(src, o, spcs, o', i);
    YieldSurvives(src, o, o', i);
    if i == n || Stops(src.item(o, i), faults, i).Some? {
      k := i;
    } else {
      assert Step(src, p, src.item(o, i)) == ProgressAt(src, o, spcs, o', i + 1);
      k := LoopFollowsItems(src, o, spcs, o', i + 1, n, faults);
    }
  }

  // ---- doing it again ------------------------------------------------------------------------

  function Lookup(spcs: Spcs, key: NamespacedName): Option<Spc> {
    if key in spcs then Some(spcs[key]) else None
  }

  /** What the first `n` items make of one entry. */
  function EntryAfter<O, C>(src: Source<O, C>, o: O, key: NamespacedName, v: Option<Spc>, n: nat): Option<Spc> {
    if n == 0 then v
    else
      var w := EntryAfter(src, o, key, v, n - 1);
      match src.item(o, n - 1)
      case Failure(_) => w
      case Cleanup(k) => if k == key && w.Some? && w.value.Managed() then None else w
      case Reconcile(opts, _) => if opts.key == key then Some(BuildSpc(src.owner(o), opts)) else w
  }

  lemma {:induction false} EntriesAreIndependent<O, C>(src: Source<O, C>, o: O, spcs: Spcs, key: NamespacedName, n: nat)
    ensures Lookup(SpcsAfter(src, o, spcs, n), key) == EntryAfter(src, o, key, Lookup(spcs, key), n)
  {
    if n == 0 {
    } else {
      EntriesAreIndependent(src, o, spcs, key, n - 1);
    }
  }

  lemma {:induction false} OnlyManagedAppears<O, C>(src: Source<O, C>, o: O, key: NamespacedName, n: nat)
    ensures var w := EntryAfter(src, o, key, None, n); w.Some? ==> w.value.Managed()
  {
    if n == 0 {
    } else {
      OnlyManagedAppears(src, o, key, n - 1);
    }
  }

  predicate Touches<C>(it: Item<C>, key: NamespacedName) {
    (it.Cleanup? && it.key == key) || (it.Reconcile? && it.opts.key == key)
  }

  lemma {:induction false} UntouchedEntry<O, C>(src: Source<O, C>, o: O, key: NamespacedName, v: Option<Spc>, i: nat, n: nat)
    requires i <= n && forall j: nat | i <= j < n :: !Touches(src.item(o, j), key)
    ensures EntryAfter(src, o, key, v, n) == EntryAfter(src, o, key, v, i)
    decreases n - i
  {
    if i == n {
    } else {
      UntouchedEntry(src, o, key, v, i, n - 1);
      assert !Touches(src.item(o, n - 1), key);
    }
  }

  /** Once the operator has written an entry, later items leave it the operator's or remove it. */
  lemma {:induction false} StaysManaged<O, C>(src: Source<O, C>, o: O, key: NamespacedName, v: Option<Spc>, i: nat, n: nat)
    requires i <= n
    requires var w := EntryAfter(src, o, key, v, i); w.Some? ==> w.value.Managed()
    ensures var w := EntryAfter(src, o, key, v, n); w.Some? ==> w.value.Managed()
    decreases n - i
  {
    if i == n {
    } else {
      StaysManaged(src, o, key, v, i, n - 1);
    }
  }

  /** An entry that some item writes ends as the last item that touches it says. */
  lemma LastTouchDecides<O, C>(src: Source<O, C>, o: O, key: NamespacedName, v: Option<Spc>, i: nat, j: nat, n: nat)
    requires i <= j < n
    requires src.item(o, i).Reconcile? && Touches(src.item(o, i), key) && Touches(src.item(o, j), key)
    requires forall x: nat | j < x < n :: !Touches(src.item(o, x), key)
    ensures EntryAfter(src, o, key, v, n) ==
            if src.item(o, j).Reconcile? then Some(BuildSpc(src.owner(o), src.item(o, j).opts)) else None
  {
    UntouchedEntry(src, o, key, v, j + 1, n);
    if i < j {
      StaysManaged(src, o, key, v, i + 1, j);
    }
  }

  /** Whether the operator has an SPC of this name at the end is up to the last item that touches it. */
  lemma LastTouchPresent<O, C>(src: Source<O, C>, o: O, key: NamespacedName, v: Option<Spc>, j: nat, n: nat)
    requires j < n && Touches(src.item(o, j), key) && forall x: nat | j < x < n :: !Touches(src.item(o, x), key)
    ensures var w := EntryAfter(src, o, key, v, n); w.Some? && w.value.Managed() <==> src.item(o, j).Reconcile?
  {
    UntouchedEntry(src, o, key, v, j + 1, n);
  }

  /** An entry that one item only cleans up: the operator's goes, anybody else's stays. */
  lemma OnlyCleanedUp<O, C>(src: Source<O, C>, o: O, key: NamespacedName, v: Option<Spc>, i: nat, n: nat)
    requires i < n && src.item(o, i) == Cleanup(key)
    requires forall x: nat | x < n && x != i :: !Touches(src.item(o, x), key)
    ensures EntryAfter(src, o, key, v, n) == if v.Some? && !v.value.Managed() then v else None
  {
    UntouchedEntry(src, o, key, v, 0, i);
    UntouchedEntry(src, o, key, v, i + 1, n);
  }

  lemma {:induction false} EntryIdempotent<O, C>(src: Source<O, C>, o: O, key: NamespacedName, v: Option<Spc>, n: nat)
    ensures EntryAfter(src, o, key, EntryAfter(src, o, key, v, n), n) == EntryAfter(src, o, key, v, n)
  {
    if n == 0 {
    } else {
      EntryIdempotent(src, o, key, v, n - 1);
      OnlyManagedAppears(src, o, key, n - 1);
    }
  }

  lemma {:induction false} EntryResumes<O, C>(src: Source<O, C>, o: O, key: NamespacedName, v: Option<Spc>, k: nat, n: nat)
    requires k <= n
    ensures EntryAfter(src, o, key, EntryAfter(src, o, key, v, k), n) == EntryAfter(src, o, key, v, n)
  {
    if n == k {
      EntryIdempotent(src, o, key, v, n);
    } else {
      EntryResumes(src, o, key, v, k, n - 1);
    }
  }

  /** Starting over after the first `k` items makes no difference to the SPCs. */
  lemma SpcsResume<O, C>(src: Source<O, C>, o: O, spcs: Spcs, k: nat, n: nat)
    requires k <= n
    ensures SpcsAfter(src, o, SpcsAfter(src, o, spcs, k), n) == SpcsAfter(src, o, spcs, n)
  {
    var part := SpcsAfter(src, o, spcs, k);
    forall key
      ensures Lookup(SpcsAfter(src, o, part, n), key) == Lookup(SpcsAfter(src, o, spcs, n), key)
    {
      EntriesAreIndependent(src, o, spcs, key, k);
      EntriesAreIndependent(src, o, part, key, n);
      EntriesAreIndependent(src, o, spcs, key, n);
      EntryResumes(src, o, key, Lookup(spcs, key), k, n);
    }
    SameLookups(SpcsAfter(src, o, part, n), SpcsAfter(src, o, spcs, n));
  }

  lemma SameLookups(a: Spcs, b: Spcs)
    requires forall key :: Lookup(a, key) == Lookup(b, key)
    ensures a == b
  {
    assert forall key :: key in a <==> Lookup(a, key).Some?;
    assert forall key :: key in b <==> Lookup(b, key).Some?;
    assert forall key | key in a :: a[key] == Lookup(a, key).value;
  }

  /** After the first `n` items every one of their modifications is in place. */
  lemma {:induction false} ModificationsSettle<O(!new), C(!new)>(src: Source<O, C>, o: O, o': O, n: nat, i: nat)
    requires Settles(src) && i < n && Modifies(src, o, i)
    ensures Stable(src, ObjAfter(src, o, o', n), src.item(o, i).change.value)
  {
    if i < n - 1 {
      ModificationsSettle(src, o, o', n - 1, i);
    }
  }

  lemma {:induction false} SettledStays<O(!new), C(!new)>(src: Source<O, C>, o: O, x: O, n: nat)
    requires forall i: nat | i < n && Modifies(src, o, i) :: Stable(src, x, src.item(o, i).change.value)
    ensures ObjAfter(src, o, x, n) == x
  {
    if n == 0 {
    } else {
      SettledStays(src, o, x, n - 1);
    }
  }

  lemma AllSettled<O(!new), C(!new)>(src: Source<O, C>, o: O, n: nat)
    requires Settles(src)
    ensures ObjAfter(src, o, ObjAfter(src, o, o, n), n) == ObjAfter(src, o, o, n)
  {
    forall i: nat | i < n && Modifies(src, o, i)
      ensures Stable(src, ObjAfter(src, o, o, n), src.item(o, i).change.value)
    {
      ModificationsSettle(src, o, o, n, i);
    }
    SettledStays(src, o, ObjAfter(src, o, o, n), n);
  }

  lemma {:induction false} UnmodifiedStays<O, C>(src: Source<O, C>, o: O, x: O, n: nat)
    requires !Modified(src, o, n)
    ensures ObjAfter(src, o, x, n) == x
  {
    if n == 0 {
    } else {
      UnmodifiedStays(src, o, x, n - 1);
    }
  }

  lemma {:induction false} SameItemsSameEffect<O, C>(src: Source<O, C>, o: O, o': O, spcs: Spcs, x: O, n: nat)
    requires SameYield(src, o, o')
    ensures SpcsAfter(src, o', spcs, n) == SpcsAfter(src, o, spcs, n)
    ensures ObjAfter(src, o', x, n) == ObjAfter(src, o, x, n)
  {
    if n == 0 {
    } else {
      SameItemsSameEffect(src, o, o', spcs, x, n - 1);
    }
  }

  /** A reconcile that ended well, or in a user's mistake: what it left behind, item by item. */
  lemma ReconcileLeaves<O(!new), C(!new)>(src: Source<O, C>, c: Cluster<O>, faults: Faults) returns (k: nat)
    requires Undisturbed(src)
    requires ReconcileOnce(src, c, faults).1.Done? || ReconcileOnce(src, c, faults).1.InvalidInput?
    ensures var n := src.count(c.stored);
            var (c', ending) := ReconcileOnce(src, c, faults);
            && k <= n && RunsThrough(src, c.stored, NO_FAULTS, k)
            && (ending.Done? ==> k == n) && (ending.InvalidInput? ==> k < n && src.item(c.stored, k) == Failure(UserError))
            && c'.spcs == SpcsAfter(src, c.stored, c.spcs, k)
            && c'.stored == if ending.Done? then ObjAfter(src, c.stored, c.stored, n) else c.stored
  {
    var o, n := c.stored, src.count(c.stored);
    k := LoopFollowsItems(src, o, c.spcs, o, 0, n, faults);
    assert Progress(c.spcs, o, false) == ProgressAt(src, o, c.spcs, o, 0);
    if !Modified(src, o, n) {
      UnmodifiedStays(src, o, o, n);
    }
  }

  /** The fixed point: after a reconcile that neither failed nor conflicted, a second
      one with nothing changed in between leaves the same SPCs and the same object,
      asks for no update, and ends the same way. */
  lemma FixedPoint<O(!new), C(!new)>(src: Source<O, C>, c: Cluster<O>, faults: Faults)
    requires Undisturbed(src) && Settles(src)
    requires ReconcileOnce(src, c, faults).1.Done? || ReconcileOnce(src, c, faults).1.InvalidInput?
    ensures var (c', ending) := ReconcileOnce(src, c, faults);
            ReconcileOnce(src, c', NO_FAULTS) == (c', ending)
  {
    var (c', ending) := ReconcileOnce(src, c, faults);
    var o, n := c.stored, src.count(c.stored);
    var k := ReconcileLeaves(src, c, faults);
    YieldSurvives(src, o, o, n);
    assert SameYield(src, o, c'.stored);
    var k' := LoopFollowsItems(src, c'.stored, c'.spcs, c'.stored, 0, n, NO_FAULTS);
    assert Progress(c'.spcs, c'.stored, false) == ProgressAt(src, c'.stored, c'.spcs, c'.stored, 0);
    assert k' == k by {
      assert forall i :: src.item(c'.stored, i) == src.item(o, i);
    }
    SameItemsSameEffect(src, o, c'.stored, c'.spcs, c'.stored, k);
    SpcsResume(src, o, c.spcs, k, k);
    AllSettled(src, o, n);
  }

  // ---- after failures ------------------------------------------------------------------------

  /** However a reconcile ends, it has done the first items and no more, and the stored
      object is as it was or as after all of them. */
  lemma AnyReconcileLeaves<O(!new), C(!new)>(src: Source<O, C>, c: Cluster<O>, faults: Faults) returns (k: nat)
    requires Undisturbed(src)
    ensures var o, n, c' := c.stored, src.count(c.stored), ReconcileOnce(src, c, faults).0;
            && k <= n && RunsThrough(src, o, NO_FAULTS, k)
            && c'.spcs == SpcsAfter(src, o, c.spcs, k)
            && (c'.stored == o || (k == n && c'.stored == ObjAfter(src, o, o, n)))
  {
    var o, n := c.stored, src.count(c.stored);
    k := LoopFollowsItems(src, o, c.spcs, o, 0, n, faults);
    assert Progress(c.spcs, o, false) == ProgressAt(src, o, c.spcs, o, 0);
    if k < n && faults.write(k).AnswerLost? && !src.item(o, k).Failure? {
      k := k + 1;
    }
  }

  /** A reconcile without faults, item by item. */
  lemma CleanReconcile<O(!new), C(!new)>(src: Source<O, C>, o: O, c: Cluster<O>) returns (k: nat)
    requires Undisturbed(src) && SameYield(src, o, c.stored)
    ensures var n, (c', ending) := src.count(o), ReconcileOnce(src, c, NO_FAULTS);
            && k <= n && RunsThrough(src, o, NO_FAULTS, k) && (k < n ==> src.item(o, k).Failure?)
            && ending == (if k == n then Done else if src.item(o, k).err == UserError then InvalidInput else Failed)
            && c'.spcs == SpcsAfter(src, o, c.spcs, k)
            && c'.stored == if k == n then ObjAfter(src, o, c.stored, n) else c.stored
  {
    var n := src.count(o);
    k := LoopFollowsItems(src, c.stored, c.spcs, c.stored, 0, n, NO_FAULTS);
    assert Progress(c.spcs, c.stored, false) == ProgressAt(src, c.stored, c.spcs, c.stored, 0);
    SameItemsSameEffect(src, o, c.stored, c.spcs, c.stored, k);
    assert forall i :: src.item(c.stored, i) == src.item(o, i);
    if !Modified(src, c.stored, n) {
      UnmodifiedStays(src, c.stored, c.stored, n);
    }
  }

  /** A write that is answered with an error ends the reconcile as failed, with the object untouched. */
  lemma WriteFaultFails<O(!new), C(!new)>(src: Source<O, C>, c: Cluster<O>, faults: Faults, k: nat)
    requires Undisturbed(src) && k < src.count(c.stored) && RunsThrough(src, c.stored, faults, k)
    requires !src.item(c.stored, k).Failure? && !faults.write(k).NoFault?
    ensures var (c', ending) := ReconcileOnce(src, c, faults);
            && ending == Failed && c'.stored == c.stored && c'.updates == c.updates
            && c'.spcs == SpcsAfter(src, c.stored, c.spcs, if faults.write(k).AnswerLost? then k + 1 else k)
  {
    var o, n := c.stored, src.count(c.stored);
    var j := LoopFollowsItems(src, o, c.spcs, o, 0, n, faults);
    assert Progress(c.spcs, o, false) == ProgressAt(src, o, c.spcs, o, 0);
    assert Stops(src.item(o, k), faults, k).Some?;
  }

  /** When every item went through and the object changed, there is exactly one update: it
      decides between done, another try after a conflict, and failure. */
  lemma UpdateDecides<O(!new), C(!new)>(src: Source<O, C>, c: Cluster<O>, faults: Faults)
    requires Undisturbed(src) && RunsThrough(src, c.stored, faults, src.count(c.stored))
    requires ObjAfter(src, c.stored, c.stored, src.count(c.stored)) != c.stored
    ensures var o, n, (c', ending) := c.stored, src.count(c.stored), ReconcileOnce(src, c, faults);
            && c'.spcs == SpcsAfter(src, o, c.spcs, n) && c'.updates == c.updates + 1
            && (faults.update.Fine? ==> ending == Done && c'.stored == ObjAfter(src, o, o, n))
            && (faults.update.Conflict? ==> ending == Requeue && c'.stored == o)
            && (faults.update.UpdateError? ==>
                  ending == Failed && c'.stored == if faults.update.applied then ObjAfter(src, o, o, n) else o)
  {
    var o, n := c.stored, src.count(c.stored);
    var k := LoopFollowsItems(src, o, c.spcs, o, 0, n, faults);
    assert Progress(c.spcs, o, false) == ProgressAt(src, o, c.spcs, o, 0);
    if !Modified(src, o, n) {
      UnmodifiedStays(src, o, o, n);
    }
  }

  /** The same SPCs, object and ending; the number of updates may differ. */
  predicate SameOutcome<O(==)>(a: (Cluster<O>, Ending), b: (Cluster<O>, Ending)) {
    a.0.spcs == b.0.spcs && a.0.stored == b.0.stored && a.1 == b.1
  }

  /** Recovery: wherever a reconcile was cut off, the next one without faults ends as
      if the first had never been. */
  lemma Recovers<O(!new), C(!new)>(src: Source<O, C>, c: Cluster<O>, faults: Faults)
    requires Undisturbed(src) && Settles(src)
    ensures SameOutcome(ReconcileOnce(src, ReconcileOnce(src, c, faults).0, NO_FAULTS), ReconcileOnce(src, c, NO_FAULTS))
  {
    var o, n, c' := c.stored, src.count(c.stored), ReconcileOnce(src, c, faults).0;
    var k := AnyReconcileLeaves(src, c, faults);
    YieldSurvives(src, o, o, n);
    var a := CleanReconcile(src, o, c);
    var b := CleanReconcile(src, o, c');
    assert a == b && k <= a;
    SpcsResume(src, o, c.spcs, k, a);
    AllSettled(src, o, n);
  }

  function Attempts<O(==), C>(src: Source<O, C>, c: Cluster<O>, fs: seq<Faults>): Cluster<O>
    decreases |fs|
  {
    if fs == [] then c else Attempts(src, ReconcileOnce(src, c, fs[0]).0, fs[1..])
  }

  /** The same after any number of attempts, each cut off in its own way. */
  lemma {:induction false} RecoversFromAll<O(!new), C(!new)>(src: Source<O, C>, c: Cluster<O>, fs: seq<Faults>)
    requires Undisturbed(src) && Settles(src)
    ensures SameOutcome(ReconcileOnce(src, Attempts(src, c, fs), NO_FAULTS), ReconcileOnce(src, c, NO_FAULTS))
    decreases |fs|
  {
    if fs == [] {
    } else {
      RecoversFromAll(src, ReconcileOnce(src, c, fs[0]).0, fs[1..]);
      Recovers(src, c, fs[0]);
    }
  }
}
