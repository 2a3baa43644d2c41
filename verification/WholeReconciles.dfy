/** Whole reconciles of NginxIngressControllers, one after the other, as runs of the
    protocol. What they leave behind is a table of who has which count. */
module WholeReconciles {
  import opened NginxManifests
  import opened CollisionProtocol
  import opened Pigeonhole
  import C = CollisionCount

  // ---- what one reconcile writes -------------------------------------------------------------

  function Written(cluster: map<Key, string>, objs: seq<Managed>, n: string, i: nat): map<Key, string>
    requires i <= |objs|
    decreases |objs| - i
  {
    if i == |objs| then cluster else Written(UpsertObject(cluster, objs[i], n), objs, n, i + 1)
  }

  lemma {:induction false} WrittenOther(cluster: map<Key, string>, objs: seq<Managed>, n: string, i: nat, k: Key)
    requires i <= |objs| && forall j | i <= j < |objs| :: objs[j].key != k
    ensures var c' := Written(cluster, objs, n, i); (k in c' <==> k in cluster) && (k in c' ==> c'[k] == cluster[k])
    decreases |objs| - i
  {
    if i == |objs| {
    } else {
      WrittenOther(UpsertObject(cluster, objs[i], n), objs, n, i + 1, k);
    }
  }

  lemma {:induction false} WrittenMine(cluster: map<Key, string>, objs: seq<Managed>, n: string, i: nat, k: Key)
    requires i <= |objs|
    requires (k in cluster && cluster[k] == n) || exists j | i <= j < |objs| :: objs[j].key == k && objs[j].Labelled()
    ensures var c' := Written(cluster, objs, n, i); k in c' && c'[k] == n
    decreases |objs| - i
  {
    if i == |objs| {
    } else {
      WrittenMine(UpsertObject(cluster, objs[i], n), objs, n, i + 1, k);
    }
  }

  // ---- runs ----------------------------------------------------------------------------------

  /** What a run may contain besides the operator's steps from stored counts: deleted
      IngressClasses, deletions and outdated reads of any kind, moves by more than one count. */
  datatype Extras = Extras(ic: bool, mixed: bool, jumps: bool)

  /** A copy of the controller with this count: the stored one, or an earlier one. */
  predicate Copy(s: State, n: string, count: nat, x: Extras) {
    if x.mixed then count <= s.Count(n) else count == s.Count(n)
  }

  predicate Allowed(s: State, a: Action, x: Extras) {
    match a
    case Create(_) => false
    case Delete(k) => x.mixed || (x.ic && !PrefixKind(k.kind))
    case Read(n, c) => Copy(s, n, c, x)
    case Write(n, ok) => ok && s.Pc(n).Writing? ==> x.jumps || s.Pc(n).count == s.Count(n) + 1
    case _ => true
  }

  predicate AllowedRun(w: World, s: State, acts: seq<Action>, x: Extras)
    requires ValidRun(w, s, acts)
    decreases acts
  {
    acts == [] || (Allowed(s, acts[0], x) && AllowedRun(w, Apply(w, s, acts[0]), acts[1..], x))
  }

  lemma {:induction false} AllowedRunsCompose(w: World, s: State, a: seq<Action>, b: seq<Action>, x: Extras)
    requires ValidRun(w, s, a) && ValidRun(w, After(w, s, a), b)
    requires AllowedRun(w, s, a, x) && AllowedRun(w, After(w, s, a), b, x)
    ensures ValidRun(w, s, a + b) && AllowedRun(w, s, a + b, x)
    decreases a
  {
    RunsCompose(w, s, a, b);
    if a == [] {
      assert a + b == b;
    } else {
      assert (a + b)[0] == a[0] && (a + b)[1..] == a[1..] + b;
      AllowedRunsCompose(w, Apply(w, s, a[0]), a[1..], b, x);
    }
  }

  lemma {:induction false} ChecksAreAllowed(w: World, s: State, acts: seq<Action>, n: string, x: Extras)
    requires ValidRun(w, s, acts) && forall i | 0 <= i < |acts| :: acts[i] == Check(n)
    ensures AllowedRun(w, s, acts, x)
    decreases acts
  {
    if acts == [] {
    } else {
      ChecksAreAllowed(w, Apply(w, s, acts[0]), acts[1..], n, x);
    }
  }

  /** From one state to another. */
  ghost predicate Leads(w: World, s: State, acts: seq<Action>, s': State, x: Extras) {
    ValidRun(w, s, acts) && After(w, s, acts) == s' && AllowedRun(w, s, acts, x)
  }

  lemma LeadsOn(w: World, s: State, a: seq<Action>, s1: State, b: seq<Action>, s2: State, x: Extras)
    requires Leads(w, s, a, s1, x) && Leads(w, s1, b, s2, x)
    ensures Leads(w, s, a + b, s2, x)
  {
    RunsCompose(w, s, a, b);
    AllowedRunsCompose(w, s, a, b, x);
  }

  lemma OneStep(w: World, s: State, a: Action, s': State, x: Extras)
    requires Enabled(w, s, a) && Allowed(s, a, x) && s' == Apply(w, s, a)
    ensures Leads(w, s, [a], s', x)
  {
    assert [a][1..] == [];
    assert ValidRun(w, Apply(w, s, a), [a][1..]);
  }

  // ---- whole reconciles ----------------------------------------------------------------------

  /** The lock of its prefix taken for `n`. */
  function Entered(w: World, s: State, n: string, pc: Pc): State
    requires n in w.nics
  {
    s.(locks := s.locks[w.bucket(w.nics[n].prefix) := n]).Goto(n, pc)
  }

  lemma EnteredMoves(w: World, s: State, n: string, pc: Pc, pc': Pc)
    requires n in w.nics
    ensures var s1 := Entered(w, s, n, pc);
            s1.Pc(n) == pc && s1.cluster == s.cluster && s1.Goto(n, pc') == Entered(w, s, n, pc')
  {
  }

  lemma Enter(w: World, s: State, n: string, c: nat, x: Extras) returns (acts: seq<Action>)
    requires n in w.nics && s.Pc(n).Idle? && s.locks == map[]
    requires c <= MAX_COLLISIONS && Copy(s, n, c, x)
    ensures Leads(w, s, acts, Entered(w, s, n, Checking(c, c, 0)), x)
  {
    var s1 := s.Goto(n, Waiting(c));
    var s2 := Entered(w, s, n, Checking(c, c, 0));
    OneStep(w, s, Read(n, c), s1, x);
    assert Apply(w, s1, Lock(n)) == s2;
    OneStep(w, s1, Lock(n), s2, x);
    LeadsOn(w, s, [Read(n, c)], s1, [Lock(n)], s2, x);
    acts := [Read(n, c)] + [Lock(n)];
  }

  lemma Leave(w: World, s: State, n: string, e: Ending, x: Extras)
    requires n in w.nics && s.locks == map[]
    ensures Leads(w, Entered(w, s, n, Closing(e)), [Unlock(n)], s.Goto(n, Idle), x)
  {
    var s1 := Entered(w, s, n, Closing(e));
    assert Apply(w, s1, Unlock(n)) == s.Goto(n, Idle);
    OneStep(w, s1, Unlock(n), s.Goto(n, Idle), x);
  }

  lemma Scan(w: World, s: State, n: string, c: nat, r: C.Outcome, x: Extras) returns (acts: seq<Action>)
    requires WellFormed(w) && n in w.nics && c <= MAX_COLLISIONS && s.Pc(n) == Checking(c, c, 0)
    requires C.CountFrom(w.objects, ReaderOf(s.cluster), w.nics[n], c) == r
    ensures Leads(w, s, acts, s.Goto(n, PcAfter(c, r)), x)
  {
    acts := ScanRefinesGetCollisionCount(w, s, n, c);
    ChecksAreAllowed(w, s, acts, n, x);
  }

  /** Read, lock and scan: the outcome is that of the scan on the cluster as it is. */
  lemma EnterAndScan(w: World, s: State, n: string, c: nat, r: C.Outcome, x: Extras) returns (acts: seq<Action>)
    requires WellFormed(w) && n in w.nics && s.Pc(n).Idle? && s.locks == map[]
    requires c <= MAX_COLLISIONS && Copy(s, n, c, x)
    requires C.CountFrom(w.objects, ReaderOf(s.cluster), w.nics[n], c) == r
    ensures Leads(w, s, acts, Entered(w, s, n, PcAfter(c, r)), x)
  {
    var s1, s2 := Entered(w, s, n, Checking(c, c, 0)), Entered(w, s, n, PcAfter(c, r));
    var a := Enter(w, s, n, c, x);
    EnteredMoves(w, s, n, Checking(c, c, 0), PcAfter(c, r));
    var b := Scan(w, s1, n, c, r, x);
    LeadsOn(w, s, a, s1, b, s2, x);
    acts := a + b;
  }

  /** Once everything from object `i` on is written. */
  function AllWritten(w: World, s: State, n: string, c: nat, i: nat): State
    requires n in w.nics && i <= |ObjectsOf(w, n, c)|
  {
    s.(cluster := Written(s.cluster, ObjectsOf(w, n, c), n, i)).Goto(n, Closing(Done))
  }

  lemma UpsertStep(w: World, s: State, n: string, c: nat, i: nat, x: Extras) returns (s': State)
    requires n in w.nics && i < |ObjectsOf(w, n, c)| && s.Pc(n) == Upserting(c, i)
    ensures Leads(w, s, [Upsert(n)], s', x) && s'.Pc(n) == Upserting(c, i + 1)
    ensures AllWritten(w, s', n, c, i + 1) == AllWritten(w, s, n, c, i)
  {
    s' := Apply(w, s, Upsert(n));
    OneStep(w, s, Upsert(n), s', x);
  }

  lemma {:induction false} UpsertAll(w: World, s: State, n: string, c: nat, i: nat, x: Extras) returns (acts: seq<Action>)
    requires n in w.nics && i <= |ObjectsOf(w, n, c)| && s.Pc(n) == Upserting(c, i)
    ensures Leads(w, s, acts, AllWritten(w, s, n, c, i), x)
    decreases |ObjectsOf(w, n, c)| - i
  {
    if i == |ObjectsOf(w, n, c)| {
      OneStep(w, s, Upsert(n), AllWritten(w, s, n, c, i), x);
      acts := [Upsert(n)];
    } else {
      var s1 := UpsertStep(w, s, n, c, i, x);
      var rest := UpsertAll(w, s1, n, c, i + 1, x);
      LeadsOn(w, s, [Upsert(n)], s1, rest, AllWritten(w, s, n, c, i), x);
      acts := [Upsert(n)] + rest;
    }
  }

  lemma WriteObjects(w: World, s: State, n: string, c: nat, x: Extras) returns (acts: seq<Action>)
    requires n in w.nics
    ensures Leads(w, Entered(w, s, n, Upserting(c, 0)), acts,
                  Entered(w, s.(cluster := Written(s.cluster, ObjectsOf(w, n, c), n, 0)), n, Closing(Done)), x)
  {
    var s1 := Entered(w, s, n, Upserting(c, 0));
    acts := UpsertAll(w, s1, n, c, 0, x);
    var s0 := s.(cluster := Written(s.cluster, ObjectsOf(w, n, c), n, 0));
    assert s1.(cluster := s0.cluster).Goto(n, Closing(Done)) == Entered(w, s0, n, Closing(Done));
  }

  /** A reconcile from count `c` that finds it free ends with all objects written. */
  lemma ReconcileWrites(w: World, s: State, n: string, c: nat, x: Extras) returns (acts: seq<Action>)
    requires WellFormed(w) && n in w.nics && s.Pc(n).Idle? && s.locks == map[]
    requires c < MAX_COLLISIONS && Copy(s, n, c, x)
    requires C.Collides(w.objects, ReaderOf(s.cluster), w.nics[n], c) == C.NoCollision
    ensures Leads(w, s, acts, s.(cluster := Written(s.cluster, ObjectsOf(w, n, c), n, 0)).Goto(n, Idle), x)
  {
    var a := EnterAndScan(w, s, n, c, C.Count(c), x);
    var s0 := s.(cluster := Written(s.cluster, ObjectsOf(w, n, c), n, 0));
    var s1, s2 := Entered(w, s, n, Upserting(c, 0)), Entered(w, s0, n, Closing(Done));
    var b := WriteObjects(w, s, n, c, x);
    LeadsOn(w, s, a, s1, b, s2, x);
    Leave(w, s0, n, Done, x);
    LeadsOn(w, s, a + b, s2, [Unlock(n)], s0.Goto(n, Idle), x);
    acts := a + b + [Unlock(n)];
  }

  lemma StoreCount(w: World, s: State, n: string, c: nat, x: Extras)
    requires n in w.nics && (x.jumps || c == s.Count(n) + 1)
    ensures Leads(w, Entered(w, s, n, Writing(s.Count(n), c)), [Write(n, true)],
                  Entered(w, s.(counts := s.counts[n := c]), n, Closing(Requeue)), x)
  {
    var s1 := Entered(w, s, n, Writing(s.Count(n), c));
    var s2 := Entered(w, s.(counts := s.counts[n := c]), n, Closing(Requeue));
    assert Apply(w, s1, Write(n, true)) == s2;
    OneStep(w, s1, Write(n, true), s2, x);
  }

  /** A reconcile that has to move on stores the next free count. */
  lemma ReconcileMoves(w: World, s: State, n: string, c: nat, x: Extras) returns (acts: seq<Action>)
    requires WellFormed(w) && n in w.nics && s.Pc(n).Idle? && s.locks == map[] && s.Count(n) < c < MAX_COLLISIONS
    requires C.CountFrom(w.objects, ReaderOf(s.cluster), w.nics[n], s.Count(n)) == C.Count(c)
    requires x.jumps || c == s.Count(n) + 1
    ensures Leads(w, s, acts, s.(counts := s.counts[n := c]).Goto(n, Idle), x)
  {
    var a := EnterAndScan(w, s, n, s.Count(n), C.Count(c), x);
    var s0 := s.(counts := s.counts[n := c]);
    var s1, s2 := Entered(w, s, n, Writing(s.Count(n), c)), Entered(w, s0, n, Closing(Requeue));
    StoreCount(w, s, n, c, x);
    LeadsOn(w, s, a, s1, [Write(n, true)], s2, x);
    Leave(w, s0, n, Requeue, x);
    LeadsOn(w, s, a + [Write(n, true)], s2, [Unlock(n)], s0.Goto(n, Idle), x);
    acts := a + [Write(n, true)] + [Unlock(n)];
  }

  // ---- the table -----------------------------------------------------------------------------

  /** Two controllers of the prefix name the same IngressClass. */
  ghost predicate SharedIc(w: World, p: string) {
    exists n, m | n in Users(w, p) && m in Users(w, p) && n != m :: w.nics[n].icName == w.nics[m].icName
  }

  /** Nothing is running, IngressClasses are nobody else's (absent if they are shared),
      and `t[c]` has all prefix-derived objects of count `c`, "" if there are none. */
  ghost predicate Table(w: World, s: State, p: string, t: seq<string>) {
    && |t| == MAX_COLLISIONS && s.locks == map[] && (forall n :: s.Pc(n).Idle?)
    && (forall n | n in Users(w, p) :: IcFree(w, s.cluster, p, n))
    && forall n, c: nat, k | n in Users(w, p) && c < MAX_COLLISIONS && KeyAt(w, n, c, k) :: Entry(s.cluster, k, t[c])
  }

  ghost predicate IcFree(w: World, cluster: map<Key, string>, p: string, n: string)
    requires n in w.nics
  {
    ClearFor(cluster, IcKey(w.nics[n]), n) && (SharedIc(w, p) ==> IcKey(w.nics[n]) !in cluster)
  }

  predicate Entry(cluster: map<Key, string>, k: Key, owner: string) {
    if owner == "" then k !in cluster else k in cluster && cluster[k] == owner
  }

  /** Every controller of the prefix has objects at every count. */
  ghost predicate Crowd(w: World, p: string) {
    && WellFormed(w)
    && (forall n, c: nat | n in Users(w, p) && c < MAX_COLLISIONS :: HasObjects(w, n, c))
  }

  ghost predicate HasObjects(w: World, n: string, c: nat)
    requires n in w.nics
  {
    exists k :: KeyAt(w, n, c, k)
  }

  /** The operator's own manifests have objects at every count. */
  lemma OperatorHasObjects(w: World, conf: Conf, n: string, c: nat)
    requires w.objects == ManifestOf(conf) && n in w.nics
    ensures HasObjects(w, n, c)
  {
    var nic, objs := w.nics[n], Objects(conf, w.nics[n], c);
    var i := if conf.namespace == "kube-system" then 1 else 2;
    assert objs[i] == NginxObject(NginxKeys(conf, nic, c)[1]);
    assert ObjectsOf(w, n, c)[i].key == NginxKeys(conf, nic, c)[1];
    assert KeyAt(w, n, c, NginxKeys(conf, nic, c)[1]);
  }

  lemma FreeCount(w: World, s: State, p: string, t: seq<string>, n: string, c: nat)
    requires Crowd(w, p) && Table(w, s, p, t) && n in Users(w, p) && c < MAX_COLLISIONS
    requires t[c] == "" || t[c] == n
    ensures C.Collides(w.objects, ReaderOf(s.cluster), w.nics[n], c) == C.NoCollision
  {
    var nic, objs := w.nics[n], ObjectsOf(w, n, c);
    assert IcFree(w, s.cluster, p, n);
    forall i | 0 <= i < |objs| && objs[i].Labelled()
      ensures C.Clear(ReaderOf(s.cluster)(objs[i].key), nic)
    {
      assert ObjectShape(nic, c, objs[i]);
      ReaderAgrees(s.cluster, objs[i].key, nic);
      if PrefixKind(objs[i].key.kind) {
        assert KeyAt(w, n, c, objs[i].key);
        assert Entry(s.cluster, objs[i].key, t[c]);
      }
    }
    C.NoCollisionIffAllClear(w.objects, ReaderOf(s.cluster), nic, c);
  }

  lemma TakenCount(w: World, s: State, p: string, t: seq<string>, n: string, c: nat)
    requires Crowd(w, p) && Table(w, s, p, t) && n in Users(w, p) && c < MAX_COLLISIONS
    requires t[c] != "" && t[c] != n
    ensures Blocked(w, s, n, c)
    ensures C.Collides(w.objects, ReaderOf(s.cluster), w.nics[n], c) == C.OnOther
  {
    assert HasObjects(w, n, c);
    var k :| KeyAt(w, n, c, k);
    assert Entry(s.cluster, k, t[c]) && IcFree(w, s.cluster, p, n);
    TakenIffBlocked(w, s, n, c);
  }

  /** Keys of different counts are different. */
  lemma SameKeySameCount(w: World, p: string, n: string, c: nat, m: string, d: nat, k: Key)
    requires WellFormed(w) && n in Users(w, p) && m in Users(w, p) && KeyAt(w, n, c, k) && KeyAt(w, m, d, k)
    ensures c == d
  {
    KeyAtIsPrefixKey(w, n, c, k);
    KeyAtIsPrefixKey(w, m, d, k);
    PrefixKeysDisjoint(w.nics[n], c, w.nics[m], d, k);
  }

  lemma WrittenEntry(w: World, s: State, p: string, t: seq<string>, n: string, c: nat, m: string, d: nat, k: Key)
    requires Crowd(w, p) && Table(w, s, p, t) && n in Users(w, p) && m in Users(w, p)
    requires c < MAX_COLLISIONS && d < MAX_COLLISIONS && KeyAt(w, m, d, k)
    ensures Entry(Written(s.cluster, ObjectsOf(w, n, c), n, 0), k, t[c := n][d])
  {
    var objs := ObjectsOf(w, n, c);
    assert Entry(s.cluster, k, t[d]) && n != "";
    if c == d {
      KeyAtShared(w, p, m, n, c, k);
      var i :| 0 <= i < |objs| && objs[i].key == k;
      assert ObjectShape(w.nics[n], c, objs[i]);
      WrittenMine(s.cluster, objs, n, 0, k);
    } else {
      forall i | 0 <= i < |objs|
        ensures objs[i].key != k
      {
        if objs[i].key == k {
          assert KeyAt(w, n, c, k);
          SameKeySameCount(w, p, n, c, m, d, k);
          assert false;
        }
      }
      WrittenOther(s.cluster, objs, n, 0, k);
    }
  }

  lemma WrittenIc(w: World, cluster: map<Key, string>, n: string, c: nat, m: string)
    requires WellFormed(w) && n in w.nics && m in w.nics
    ensures var cluster', k := Written(cluster, ObjectsOf(w, n, c), n, 0), IcKey(w.nics[m]);
            if w.nics[m].icName == w.nics[n].icName then k in cluster' && cluster'[k] == n
            else (k in cluster' <==> k in cluster) && (k in cluster ==> cluster'[k] == cluster[k])
  {
    var objs, k := ObjectsOf(w, n, c), IcKey(w.nics[m]);
    if w.nics[m].icName == w.nics[n].icName {
      assert IcFirst(w.nics[n], objs);
      WrittenMine(cluster, objs, n, 0, k);
    } else {
      forall i | 0 <= i < |objs|
        ensures objs[i].key != k
      {
        assert ObjectShape(w.nics[n], c, objs[i]);
      }
      WrittenOther(cluster, objs, n, 0, k);
    }
  }

  /** The cluster after a reconcile of `n` and, if IngressClasses are shared, the deletion of its IngressClass. */
  ghost function Taken(w: World, cluster: map<Key, string>, p: string, n: string, c: nat): map<Key, string>
    requires n in w.nics
  {
    var cluster' := Written(cluster, ObjectsOf(w, n, c), n, 0);
    if SharedIc(w, p) then cluster' - {IcKey(w.nics[n])} else cluster'
  }

  lemma TakenIcFree(w: World, s: State, p: string, t: seq<string>, n: string, c: nat, m: string)
    requires Crowd(w, p) && Table(w, s, p, t) && n in Users(w, p) && m in Users(w, p)
    ensures IcFree(w, Taken(w, s.cluster, p, n, c), p, m)
  {
    WrittenIc(w, s.cluster, n, c, m);
    assert IcFree(w, s.cluster, p, m);
    if !SharedIc(w, p) && m != n {
      assert w.nics[m].icName != w.nics[n].icName;
    }
  }

  lemma TakenTable(w: World, s: State, p: string, t: seq<string>, n: string, c: nat)
    requires Crowd(w, p) && Table(w, s, p, t) && n in Users(w, p) && c < MAX_COLLISIONS
    ensures Table(w, s.(cluster := Taken(w, s.cluster, p, n, c)).Goto(n, Idle), p, t[c := n])
  {
    var s' := s.(cluster := Taken(w, s.cluster, p, n, c)).Goto(n, Idle);
    forall m | m in Users(w, p)
      ensures IcFree(w, s'.cluster, p, m)
    {
      TakenIcFree(w, s, p, t, n, c, m);
    }
    forall m, d: nat, k | m in Users(w, p) && d < MAX_COLLISIONS && KeyAt(w, m, d, k)
      ensures Entry(s'.cluster, k, t[c := n][d])
    {
      WrittenEntry(w, s, p, t, n, c, m, d, k);
    }
    assert forall m :: s'.Pc(m) == s.Pc(m) || (m == n && s'.Pc(m) == Idle);
  }

  /** A free count is taken, by a controller whose copy of itself has that count. */
  lemma Take(w: World, s: State, p: string, t: seq<string>, n: string, c: nat, x: Extras) returns (acts: seq<Action>, s': State)
    requires Crowd(w, p) && Table(w, s, p, t) && n in Users(w, p) && c < MAX_COLLISIONS
    requires Copy(s, n, c, x) && (t[c] == "" || t[c] == n) && (SharedIc(w, p) ==> x.ic)
    ensures Leads(w, s, acts, s', x) && Table(w, s', p, t[c := n]) && s'.counts == s.counts
  {
    FreeCount(w, s, p, t, n, c);
    TakenTable(w, s, p, t, n, c);
    acts := ReconcileWrites(w, s, n, c, x);
    var s1 := s.(cluster := Written(s.cluster, ObjectsOf(w, n, c), n, 0)).Goto(n, Idle);
    s' := s.(cluster := Taken(w, s.cluster, p, n, c)).Goto(n, Idle);
    if SharedIc(w, p) {
      WrittenIc(w, s.cluster, n, c, n);
      OneStep(w, s1, Delete(IcKey(w.nics[n])), s', x);
      LeadsOn(w, s, acts, s1, [Delete(IcKey(w.nics[n]))], s', x);
      acts := acts + [Delete(IcKey(w.nics[n]))];
    }
  }

  /** A controller moves past counts that others have. */
  lemma Move(w: World, s: State, p: string, t: seq<string>, n: string, c: nat, x: Extras) returns (acts: seq<Action>, s': State)
    requires Crowd(w, p) && Table(w, s, p, t) && n in Users(w, p) && s.Count(n) < c < MAX_COLLISIONS
    requires (t[c] == "" || t[c] == n) && forall d | s.Count(n) <= d < c :: t[d] != "" && t[d] != n
    requires x.jumps || c == s.Count(n) + 1
    ensures Leads(w, s, acts, s', x) && Table(w, s', p, t) && s'.counts == s.counts[n := c]
  {
    FreeCount(w, s, p, t, n, c);
    forall d | s.Count(n) <= d < c
      ensures C.Collides(w.objects, ReaderOf(s.cluster), w.nics[n], d) == C.OnOther
    {
      TakenCount(w, s, p, t, n, d);
    }
    C.CountIsLeastFree(w.objects, ReaderOf(s.cluster), w.nics[n], s.Count(n), c);
    acts := ReconcileMoves(w, s, n, c, x);
    s' := s.(counts := s.counts[n := c]).Goto(n, Idle);
    SameTable(w, s, p, t, n, c);
  }

  lemma SameTable(w: World, s: State, p: string, t: seq<string>, n: string, c: nat)
    requires Table(w, s, p, t)
    ensures Table(w, s.(counts := s.counts[n := c]).Goto(n, Idle), p, t)
  {
    var s' := s.(counts := s.counts[n := c]).Goto(n, Idle);
    assert forall m :: s'.Pc(m) == s.Pc(m) || (m == n && s'.Pc(m) == Idle);
  }

  /** With every count from its own on taken by others, a reconcile gives up. */
  lemma GiveUp(w: World, s: State, p: string, t: seq<string>, n: string, x: Extras) returns (acts: seq<Action>)
    requires Crowd(w, p) && Table(w, s, p, t) && n in Users(w, p) && s.Count(n) <= MAX_COLLISIONS
    requires forall d | s.Count(n) <= d < MAX_COLLISIONS :: t[d] != "" && t[d] != n
    ensures Leads(w, s, acts, Entered(w, s, n, Closing(MaxCollisions)), x)
  {
    forall d | s.Count(n) <= d < MAX_COLLISIONS
      ensures C.Collides(w.objects, ReaderOf(s.cluster), w.nics[n], d) == C.OnOther
    {
      TakenCount(w, s, p, t, n, d);
    }
    C.MaxIffAllTaken(w.objects, ReaderOf(s.cluster), w.nics[n], s.Count(n));
    acts := EnterAndScan(w, s, n, s.Count(n), C.MaxCollisions, x);
  }

  /** Move and take in one. */
  lemma Settle(w: World, s: State, p: string, t: seq<string>, n: string, c: nat, x: Extras) returns (acts: seq<Action>, s': State)
    requires Crowd(w, p) && Table(w, s, p, t) && n in Users(w, p) && s.Count(n) <= c < MAX_COLLISIONS
    requires t[c] == "" && forall d | s.Count(n) <= d < c :: t[d] != "" && t[d] != n
    requires x.jumps && (SharedIc(w, p) ==> x.ic)
    ensures Leads(w, s, acts, s', x) && Table(w, s', p, t[c := n])
    ensures s'.Count(n) == c && forall m | m != n :: s'.Count(m) == s.Count(m)
  {
    if s.Count(n) == c {
      acts, s' := Take(w, s, p, t, n, c, x);
    } else {
      var a, s1 := Move(w, s, p, t, n, c, x);
      var b;
      b, s' := Take(w, s1, p, t, n, c, x);
      LeadsOn(w, s, a, s1, b, s', x);
      acts := a + b;
    }
  }

  // ---- deleting ------------------------------------------------------------------------------

  /** The prefix-derived keys from object `i` on. */
  function PrefixKeysFrom(objs: seq<Managed>, i: nat): set<Key> {
    set j | i <= j < |objs| && PrefixKind(objs[j].key.kind) :: objs[j].key
  }

  lemma {:induction false} DeleteAll(w: World, s: State, objs: seq<Managed>, i: nat, x: Extras) returns (acts: seq<Action>)
    requires i <= |objs| && x.mixed
    ensures Leads(w, s, acts, s.(cluster := s.cluster - PrefixKeysFrom(objs, i)), x)
    decreases |objs| - i
  {
    var s2 := s.(cluster := s.cluster - PrefixKeysFrom(objs, i));
    if i == |objs| {
      acts := [];
      assert s.cluster - PrefixKeysFrom(objs, i) == s.cluster;
    } else if PrefixKind(objs[i].key.kind) && objs[i].key in s.cluster {
      var s1 := s.(cluster := s.cluster - {objs[i].key});
      OneStep(w, s, Delete(objs[i].key), s1, x);
      var rest := DeleteAll(w, s1, objs, i + 1, x);
      assert s1.cluster - PrefixKeysFrom(objs, i + 1) == s2.cluster;
      LeadsOn(w, s, [Delete(objs[i].key)], s1, rest, s2, x);
      acts := [Delete(objs[i].key)] + rest;
    } else {
      acts := DeleteAll(w, s, objs, i + 1, x);
      assert s.cluster - PrefixKeysFrom(objs, i + 1) == s2.cluster;
    }
  }

  /** Somebody deletes all objects of a count. */
  lemma Wipe(w: World, s: State, p: string, t: seq<string>, n: string, c: nat, x: Extras) returns (acts: seq<Action>, s': State)
    requires Crowd(w, p) && Table(w, s, p, t) && n in Users(w, p) && c < MAX_COLLISIONS && x.mixed
    ensures Leads(w, s, acts, s', x) && Table(w, s', p, t[c := ""]) && s'.counts == s.counts
  {
    var objs := ObjectsOf(w, n, c);
    acts := DeleteAll(w, s, objs, 0, x);
    s' := s.(cluster := s.cluster - PrefixKeysFrom(objs, 0));
    assert forall m :: s'.Pc(m) == s.Pc(m);
    assert forall m | m in Users(w, p) :: IcFree(w, s.cluster, p, m) && IcFree(w, s'.cluster, p, m);
    forall m, d: nat, k | m in Users(w, p) && d < MAX_COLLISIONS && KeyAt(w, m, d, k)
      ensures Entry(s'.cluster, k, t[c := ""][d])
    {
      assert Entry(s.cluster, k, t[d]);
      if c == d {
        KeyAtShared(w, p, m, n, c, k);
      } else if k in PrefixKeysFrom(objs, 0) {
        assert KeyAt(w, n, c, k);
        SameKeySameCount(w, p, n, c, m, d, k);
        assert false;
      }
    }
  }
}
