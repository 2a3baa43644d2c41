/** In every interleaving a non-default controller writes only objects nobody
    else owns: always for the objects named after its prefix, and for the
    IngressClass under an exact condition. */
module ProtocolSafety {
  import opened NginxManifests
  import opened CollisionProtocol

  /** Controllers that share an IngressClass name share a lock as well. The
      default controller is exempt as the one that checks nothing. */
  ghost predicate SerialIc(w: World) {
    forall n, m | n in w.nics && m in w.nics && n != m && !w.nics[n].IsDefault()
                  && w.nics[n].icName == w.nics[m].icName ::
      w.bucket(w.nics[n].prefix) == w.bucket(w.nics[m].prefix)
  }

  /** At most one reconcile is under way. */
  ghost predicate Solo(w: World, s: State) {
    forall n, m | n in w.nics && m in w.nics && s.Pc(n).Critical() && s.Pc(m).Critical() :: n == m
  }

  /** The kinds the invariant speaks about; `ic` adds the IngressClass. */
  predicate Guarded(k: Kind, ic: bool) {
    PrefixKind(k) || (ic && k == IngressClass)
  }

  ghost predicate Cleared(objs: seq<Managed>, upTo: nat, cluster: map<Key, string>, n: string, ic: bool)
    requires upTo <= |objs|
  {
    forall j | 0 <= j < upTo :: Guarded(objs[j].key.kind, ic) ==> NotOthers(cluster, objs[j].key, n)
  }

  ghost predicate Holds(w: World, s: State, n: string)
    requires n in w.nics
  {
    var b := w.bucket(w.nics[n].prefix);
    b in s.locks && s.locks[b] == n
  }

  /** What a controller at `pc` relies on: its bounds, and the objects it has found clear. */
  ghost predicate PcInv(w: World, n: string, pc: Pc, cluster: map<Key, string>, ic: bool)
    requires n in w.nics
  {
    var isDefault := w.nics[n].IsDefault();
    match pc
    case Waiting(start) => start <= MAX_COLLISIONS
    case Checking(start, count, i) =>
      && start <= count <= MAX_COLLISIONS && (isDefault ==> count == start) && (count == MAX_COLLISIONS ==> i == 0)
      && i <= |ObjectsOf(w, n, count)|
      && (!isDefault ==> Cleared(ObjectsOf(w, n, count), i, cluster, n, ic))
    case Writing(start, count) => start < count < MAX_COLLISIONS
    case Upserting(start, i) =>
      && start < MAX_COLLISIONS && i <= |ObjectsOf(w, n, start)|
      && (!isDefault ==> Cleared(ObjectsOf(w, n, start), |ObjectsOf(w, n, start)|, cluster, n, ic))
    case _ => true
  }

  ghost predicate NicInv(w: World, s: State, n: string, ic: bool)
    requires n in w.nics
  {
    (s.Pc(n).Critical() ==> Holds(w, s, n)) && PcInv(w, n, s.Pc(n), s.cluster, ic)
  }

  ghost predicate Inv(w: World, s: State, ic: bool) {
    forall n | n in w.nics :: NicInv(w, s, n, ic)
  }

  /** Who moves in a step; "" is somebody outside the operator. */
  function Actor(a: Action): string {
    match a
    case Delete(_) => ""
    case Create(_) => ""
    case Read(n, _) => n
    case Lock(n) => n
    case Check(n) => n
    case CheckFails(n) => n
    case Write(n, _) => n
    case Upsert(n) => n
    case UpsertFails(n, _) => n
    case Unlock(n) => n
  }

  /** The two objects are not the same if two controllers are in their critical sections at once. */
  lemma CriticalKeysDiffer(w: World, s: State, n: string, c: nat, j: nat, m: string, d: nat, i: nat, ic: bool)
    requires WellFormed(w) && n in w.nics && m in w.nics && n != m && !w.nics[n].IsDefault()
    requires Holds(w, s, n) && Holds(w, s, m)
    requires ic ==> SerialIc(w)
    requires j < |ObjectsOf(w, n, c)| && i < |ObjectsOf(w, m, d)|
    requires Guarded(ObjectsOf(w, n, c)[j].key.kind, ic)
    ensures ObjectsOf(w, n, c)[j].key != ObjectsOf(w, m, d)[i].key
  {
    assert ObjectShape(w.nics[n], c, ObjectsOf(w, n, c)[j]);
    assert ObjectShape(w.nics[m], d, ObjectsOf(w, m, d)[i]);
    var key := ObjectsOf(w, n, c)[j].key;
    if key == ObjectsOf(w, m, d)[i].key && PrefixKind(key.kind) {
      PrefixKeysDisjoint(w.nics[n], c, w.nics[m], d, key);
    }
  }

  /** A write elsewhere in the cluster leaves a cleared list cleared. */
  lemma ClearedFrame(objs: seq<Managed>, upTo: nat, cluster: map<Key, string>, cluster': map<Key, string>,
                     n: string, ic: bool, key: Key)
    requires upTo <= |objs| && Cleared(objs, upTo, cluster, n, ic)
    requires forall k | k in cluster' && k != key :: k in cluster && cluster[k] == cluster'[k]
    requires NotOthers(cluster', key, n)
          || forall j | 0 <= j < |objs| :: Guarded(objs[j].key.kind, ic) ==> objs[j].key != key
    ensures Cleared(objs, upTo, cluster', n, ic)
  {
  }

  /** The objects a controller relies on right now. */
  function ReliedAt(w: World, pc: Pc, n: string): seq<Managed>
    requires n in w.nics
  {
    match pc
    case Checking(_, count, _) => ObjectsOf(w, n, count)
    case Upserting(start, _) => ObjectsOf(w, n, start)
    case _ => []
  }

  function Relied(w: World, s: State, n: string): seq<Managed>
    requires n in w.nics
  {
    ReliedAt(w, s.Pc(n), n)
  }

  /** One upsert by `m` touches nothing another controller relies on. */
  lemma UpsertAvoidsOthers(w: World, s: State, n: string, m: string, o: Managed, ic: bool)
    requires WellFormed(w) && Inv(w, s, ic) && n in w.nics && n != m && !w.nics[n].IsDefault()
    requires AboutToUpsert(w, s, m, o)
    requires ic ==> SerialIc(w) || Solo(w, s)
    ensures forall j | 0 <= j < |Relied(w, s, n)| ::
              Guarded(Relied(w, s, n)[j].key.kind, ic) ==> Relied(w, s, n)[j].key != o.key
  {
    assert NicInv(w, s, n, ic) && NicInv(w, s, m, ic);
    if s.Pc(n).Checking? || s.Pc(n).Upserting? {
      assert s.Pc(n).Critical() && s.Pc(m).Critical();
      assert !Solo(w, s);
      var c := if s.Pc(n).Checking? then s.Pc(n).count else s.Pc(n).start;
      forall j | 0 <= j < |Relied(w, s, n)| && Guarded(Relied(w, s, n)[j].key.kind, ic)
        ensures Relied(w, s, n)[j].key != o.key
      {
        CriticalKeysDiffer(w, s, n, c, j, m, s.Pc(m).start, s.Pc(m).i, ic);
      }
    }
  }

  /** The object a step writes or removes, if any: every other key keeps its owner. */
  lemma StepTouchesOneKey(w: World, s: State, a: Action) returns (key: Key)
    requires Enabled(w, s, a)
    ensures forall k | k in Apply(w, s, a).cluster && k != key ::
              k in s.cluster && s.cluster[k] == Apply(w, s, a).cluster[k]
    ensures a.Delete? || a.Create? ==> key == a.key
    ensures Apply(w, s, a).cluster == s.cluster || a.Delete? || a.Create?
         || ((a.Upsert? || a.UpsertFails?) && s.Pc(a.n).i < |ObjectsOf(w, a.n, s.Pc(a.n).start)|
             && key == ObjectsOf(w, a.n, s.Pc(a.n).start)[s.Pc(a.n).i].key)
  {
    if a.Delete? || a.Create? {
      key := a.key;
    } else if (a.Upsert? || a.UpsertFails?) && s.Pc(a.n).i < |ObjectsOf(w, a.n, s.Pc(a.n).start)| {
      key := ObjectsOf(w, a.n, s.Pc(a.n).start)[s.Pc(a.n).i].key;
    } else {
      key := Key(Namespace, "", "");
    }
  }

  lemma OtherStepKeepsCleared(w: World, s: State, a: Action, n: string, upTo: nat, ic: bool)
    requires WellFormed(w) && Inv(w, s, ic) && Enabled(w, s, a) && n in w.nics && Actor(a) != n
    requires !w.nics[n].IsDefault() && (ic ==> SerialIc(w) || Solo(w, s))
    requires upTo <= |Relied(w, s, n)| && Cleared(Relied(w, s, n), upTo, s.cluster, n, ic)
    ensures Cleared(Relied(w, s, n), upTo, Apply(w, s, a).cluster, n, ic)
  {
    var cluster' := Apply(w, s, a).cluster;
    if cluster' != s.cluster {
      var key := StepTouchesOneKey(w, s, a);
      if a.Upsert? || a.UpsertFails? {
        UpsertAvoidsOthers(w, s, n, a.n, ObjectsOf(w, a.n, s.Pc(a.n).start)[s.Pc(a.n).i], ic);
      }
      ClearedFrame(Relied(w, s, n), upTo, s.cluster, cluster', n, ic, key);
    }
  }

  lemma OtherStepKeepsLock(w: World, s: State, a: Action, n: string)
    requires n in w.nics && Holds(w, s, n) && Enabled(w, s, a) && Actor(a) != n
    requires a.Unlock? ==> Holds(w, s, a.n)
    ensures Holds(w, Apply(w, s, a), n)
  {
  }

  lemma NicInvFrame(w: World, s: State, s': State, n: string, ic: bool)
    requires n in w.nics && NicInv(w, s, n, ic) && s'.Pc(n) == s.Pc(n)
    requires Holds(w, s, n) ==> Holds(w, s', n)
    requires var pc := s.Pc(n);
             !w.nics[n].IsDefault() && (pc.Checking? || pc.Upserting?)
             ==> Cleared(Relied(w, s, n), if pc.Checking? then pc.i else |Relied(w, s, n)|, s'.cluster, n, ic)
    ensures NicInv(w, s', n, ic)
  {
  }

  /** A step of somebody else keeps what `n` relies on. */
  lemma OtherStepKeeps(w: World, s: State, a: Action, n: string, ic: bool)
    requires WellFormed(w) && Inv(w, s, ic) && Enabled(w, s, a) && n in w.nics && Actor(a) != n
    requires ic ==> SerialIc(w) || Solo(w, s)
    ensures NicInv(w, Apply(w, s, a), n, ic)
  {
    assert NicInv(w, s, n, ic);
    if a.Unlock? { assert NicInv(w, s, a.n, ic); }
    if Holds(w, s, n) {
      OtherStepKeepsLock(w, s, a, n);
    }
    var pc := s.Pc(n);
    if !w.nics[n].IsDefault() && (pc.Checking? || pc.Upserting?) {
      OtherStepKeepsCleared(w, s, a, n, if pc.Checking? then pc.i else |Relied(w, s, n)|, ic);
    }
    OtherStepKeepsPc(w, s, a, n);
    NicInvFrame(w, s, Apply(w, s, a), n, ic);
  }

  lemma OtherStepKeepsPc(w: World, s: State, a: Action, n: string)
    requires n in w.nics && n != "" && Enabled(w, s, a) && Actor(a) != n
    ensures Apply(w, s, a).Pc(n) == s.Pc(n)
  {
  }

  /** A look establishes what its controller goes on to rely on. */
  lemma CheckKeepsPcInv(w: World, n: string, pc: Pc, cluster: map<Key, string>, ic: bool)
    requires WellFormed(w) && n in w.nics && pc.Checking? && PcInv(w, n, pc, cluster, ic)
    ensures PcInv(w, n, CheckPc(w, cluster, n, pc), cluster, ic)
  {
    var objs := ObjectsOf(w, n, pc.count);
    if pc.i < |objs| {
      assert ObjectShape(w.nics[n], pc.count, objs[pc.i]);
    }
  }

  lemma OwnStepKeeps(w: World, s: State, a: Action, n: string, ic: bool)
    requires WellFormed(w) && Inv(w, s, ic) && Enabled(w, s, a) && n in w.nics && Actor(a) == n
    ensures NicInv(w, Apply(w, s, a), n, ic)
  {
    assert NicInv(w, s, n, ic);
    var s' := Apply(w, s, a);
    if a.Check? {
      CheckKeepsPcInv(w, n, s.Pc(n), s.cluster, ic);
    } else if a.Upsert? && s'.cluster != s.cluster {
      var objs := ObjectsOf(w, n, s.Pc(n).start);
      if !w.nics[n].IsDefault() {
        ClearedFrame(objs, |objs|, s.cluster, s'.cluster, n, ic, objs[s.Pc(n).i].key);
      }
    }
  }

  lemma StepKeepsInv(w: World, s: State, a: Action, ic: bool)
    requires WellFormed(w) && Inv(w, s, ic) && Enabled(w, s, a)
    requires ic ==> SerialIc(w) || Solo(w, s)
    ensures Inv(w, Apply(w, s, a), ic)
  {
    forall n | n in w.nics
      ensures NicInv(w, Apply(w, s, a), n, ic)
    {
      if Actor(a) == n {
        OwnStepKeeps(w, s, a, n, ic);
      } else {
        OtherStepKeeps(w, s, a, n, ic);
      }
    }
  }

  // ---- whole runs ----------------------------------------------------------------------------

  /** Whole reconciles, one after the other. */
  ghost predicate SoloRun(w: World, s: State, acts: seq<Action>)
    requires ValidRun(w, s, acts)
    decreases acts
  {
    Solo(w, s) && (acts == [] || SoloRun(w, Apply(w, s, acts[0]), acts[1..]))
  }

  lemma {:induction false} RunKeepsInv(w: World, s: State, acts: seq<Action>, ic: bool)
    requires WellFormed(w) && ValidRun(w, s, acts) && Inv(w, s, ic)
    requires ic ==> SerialIc(w) || SoloRun(w, s, acts)
    ensures Inv(w, After(w, s, acts), ic)
    decreases acts
  {
    if acts == [] {
    } else {
      StepKeepsInv(w, s, acts[0], ic);
      RunKeepsInv(w, Apply(w, s, acts[0]), acts[1..], ic);
    }
  }

  lemma UpsertIsClear(w: World, s: State, n: string, o: Managed, ic: bool)
    requires WellFormed(w) && Inv(w, s, ic) && AboutToUpsert(w, s, n, o)
    requires !w.nics[n].IsDefault() && Guarded(o.key.kind, ic)
    ensures NotOthers(s.cluster, o.key, n)
  {
    assert NicInv(w, s, n, ic);
  }

  /** Whatever the interleaving, the failures and the deletions by others: when a
      controller is about to write an object named after its prefix, no other
      controller owns that object. */
  lemma PrefixObjectsExclusive(w: World, s: State, acts: seq<Action>, n: string, o: Managed)
    requires WellFormed(w) && Quiet(s) && ValidRun(w, s, acts)
    requires AboutToUpsert(w, After(w, s, acts), n, o)
    requires !w.nics[n].IsDefault() && PrefixKind(o.key.kind)
    ensures NotOthers(After(w, s, acts).cluster, o.key, n)
  {
    RunKeepsInv(w, s, acts, false);
    UpsertIsClear(w, After(w, s, acts), n, o, false);
  }

  /** One reconcile at a time, that holds of every object, the IngressClass included. */
  lemma SequentialRunsExclusive(w: World, s: State, acts: seq<Action>, n: string, o: Managed)
    requires WellFormed(w) && Quiet(s) && ValidRun(w, s, acts) && SoloRun(w, s, acts)
    requires AboutToUpsert(w, After(w, s, acts), n, o)
    requires !w.nics[n].IsDefault() && o.Labelled()
    ensures NotOthers(After(w, s, acts).cluster, o.key, n)
  {
    RunKeepsInv(w, s, acts, true);
    assert ObjectShape(w.nics[n], After(w, s, acts).Pc(n).start, o);
    UpsertIsClear(w, After(w, s, acts), n, o, true);
  }

  // ---- the default controller ----------------------------------------------------------------

  /** No other controller owns an object the default controller's names cover. */
  ghost predicate DefaultNamesFree(w: World, s: State, d: string)
    requires d in w.nics
  {
    forall k | k in s.cluster && PrefixKey(w.nics[d], 0, k) :: NotOthers(s.cluster, k, d)
  }

  lemma StepKeepsDefaultNames(w: World, s: State, a: Action, d: string)
    requires WellFormed(w) && d in w.nics && w.nics[d].IsDefault()
    requires Enabled(w, s, a) && DefaultNamesFree(w, s, d)
    ensures DefaultNamesFree(w, Apply(w, s, a), d)
  {
    var s' := Apply(w, s, a);
    forall k | k in s'.cluster && PrefixKey(w.nics[d], 0, k)
      ensures NotOthers(s'.cluster, k, d)
    {
      var key := StepTouchesOneKey(w, s, a);
      if k == key && (a.Upsert? || a.UpsertFails?) && s'.cluster != s.cluster {
        var c, i := s.Pc(a.n).start, s.Pc(a.n).i;
        assert ObjectShape(w.nics[a.n], c, ObjectsOf(w, a.n, c)[i]);
        PrefixKeysDisjoint(w.nics[d], 0, w.nics[a.n], c, k);
        assert a.n == d;
      }
    }
  }

  /** The default controller checks nothing, yet never writes over an object of
      another controller: nobody else can come to own an object called `nginx`. */
  lemma {:induction false} DefaultObjectsExclusive(w: World, s: State, acts: seq<Action>, d: string, o: Managed)
    requires WellFormed(w) && d in w.nics && w.nics[d].IsDefault() && DefaultNamesFree(w, s, d)
    requires ValidRun(w, s, acts) && AboutToUpsert(w, After(w, s, acts), d, o) && PrefixKind(o.key.kind)
    ensures NotOthers(After(w, s, acts).cluster, o.key, d)
    decreases acts
  {
    if acts == [] {
      assert ObjectShape(w.nics[d], s.Pc(d).start, o);
    } else {
      StepKeepsDefaultNames(w, s, acts[0], d);
      DefaultObjectsExclusive(w, Apply(w, s, acts[0]), acts[1..], d, o);
    }
  }
}
