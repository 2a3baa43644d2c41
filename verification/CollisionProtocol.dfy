/** The reconciles of any number of NginxIngressControllers, interleaved step by
    step: every Get, every write and every lock operation is a step of its own.
    Nondeterminism (who moves, what fails, what others do to the cluster) is in
    the actions, so a run is a sequence of actions. */
module CollisionProtocol {
  import opened NginxManifests
  import C = CollisionCount

  /** Fixed for a run. `bucket` is the hashed key mutex: which of its locks a prefix uses. */
  datatype World = World(objects: Manifest, nics: map<string, Nic>, bucket: string -> nat)

  ghost predicate WellFormed(w: World) {
    Shaped(w.objects) && forall n | n in w.nics :: w.nics[n].name == n && n != ""
  }

  datatype Ending = Done | Requeue | MaxCollisions | IcCollision | Error

  /** Where a controller's reconcile is. The lock is held from `Checking` to `Closing`. */
  datatype Pc =
    | Idle
    | Waiting(start: nat)                        // has read its own object
    | Checking(start: nat, count: nat, i: nat)   // about to look at object i of `count`
    | Writing(start: nat, count: nat)            // about to store a new count
    | Upserting(start: nat, i: nat)              // about to write object i of its count
    | Closing(ending: Ending)                    // about to release the lock
  {
    predicate Critical() {
      !Idle? && !Waiting?
    }
  }

  /** `cluster` maps each existing object to the controller owning it, "" if none does. */
  datatype State = State(cluster: map<Key, string>, counts: map<string, nat>,
                         locks: map<nat, string>, pcs: map<string, Pc>)
  {
    function Pc(n: string): Pc {
      if n in pcs then pcs[n] else Idle
    }

    function Count(n: string): nat {
      if n in counts then counts[n] else 0
    }

    function Goto(n: string, pc: Pc): State {
      this.(pcs := pcs[n := pc])
    }
  }

  datatype Action =
    | Read(n: string, count: nat)            // gets its own object, with this stored count
    | Lock(n: string)
    | Check(n: string)                       // one look, or the end of a scan
    | CheckFails(n: string)
    | Write(n: string, ok: bool)
    | Upsert(n: string)
    | UpsertFails(n: string, applied: bool)  // an error, with or without effect
    | Unlock(n: string)
    | Delete(key: Key)                       // somebody else deletes an object
    | Create(key: Key)                       // somebody else creates or takes over an object

  /** Nobody but `n` owns the object. */
  predicate NotOthers(cluster: map<Key, string>, key: Key, n: string) {
    key in cluster ==> cluster[key] == n || cluster[key] == ""
  }

  /** The object is absent or the controller's own: the test `collides` makes. */
  predicate ClearFor(cluster: map<Key, string>, key: Key, n: string) {
    key in cluster ==> cluster[key] == n
  }

  function ObjectsOf(w: World, n: string, count: nat): seq<Managed>
    requires n in w.nics
  {
    w.objects(w.nics[n], count)
  }

  function AfterScan(start: nat, count: nat): Pc {
    if count != start then Writing(start, count) else Upserting(start, 0)
  }

  /** One look at `objs[pc.i]`, where `objs` are the objects of the count being checked. */
  function Look(objs: seq<Managed>, isDefault: bool, cluster: map<Key, string>, n: string, pc: Pc): Pc
    requires pc.Checking? && pc.i <= |objs|
  {
    if pc.count == MAX_COLLISIONS then Closing(MaxCollisions)
    else if isDefault || pc.i == |objs| then AfterScan(pc.start, pc.count)
    else if !objs[pc.i].Labelled() || ClearFor(cluster, objs[pc.i].key, n) then Checking(pc.start, pc.count, pc.i + 1)
    else if objs[pc.i].key.kind == IngressClass then Closing(IcCollision)
    else Checking(pc.start, pc.count + 1, 0)
  }

  function CheckPc(w: World, cluster: map<Key, string>, n: string, pc: Pc): Pc
    requires n in w.nics && pc.Checking? && pc.i <= |ObjectsOf(w, n, pc.count)|
  {
    Look(ObjectsOf(w, n, pc.count), w.nics[n].IsDefault(), cluster, n, pc)
  }

  /** Server-side apply: labelled objects carry the controller's owner reference. */
  function UpsertObject(cluster: map<Key, string>, o: Managed, n: string): map<Key, string> {
    if o.Labelled() then cluster[o.key := n]
    else if o.key in cluster then cluster
    else cluster[o.key := ""]
  }

  predicate Enabled(w: World, s: State, a: Action) {
    match a
    case Read(n, count) => n in w.nics && s.Pc(n).Idle? && count <= MAX_COLLISIONS
    case Lock(n) => n in w.nics && s.Pc(n).Waiting? && w.bucket(w.nics[n].prefix) !in s.locks
    case Check(n) => n in w.nics && s.Pc(n).Checking? && s.Pc(n).i <= |ObjectsOf(w, n, s.Pc(n).count)|
    case CheckFails(n) => n in w.nics && s.Pc(n).Checking? && s.Pc(n).count < MAX_COLLISIONS
    case Write(n, ok) => n in w.nics && s.Pc(n).Writing? && (ok ==> s.Count(n) == s.Pc(n).start)
    case Upsert(n) => n in w.nics && s.Pc(n).Upserting? && s.Pc(n).i <= |ObjectsOf(w, n, s.Pc(n).start)|
    case UpsertFails(n, applied) => n in w.nics && s.Pc(n).Upserting? && s.Pc(n).i < |ObjectsOf(w, n, s.Pc(n).start)|
    case Unlock(n) => n in w.nics && s.Pc(n).Closing?
    case Delete(key) => key in s.cluster
    case Create(key) => true
  }

  function UpsertCluster(w: World, s: State, n: string): map<Key, string>
    requires n in w.nics && s.Pc(n).Upserting? && s.Pc(n).i < |ObjectsOf(w, n, s.Pc(n).start)|
  {
    UpsertObject(s.cluster, ObjectsOf(w, n, s.Pc(n).start)[s.Pc(n).i], n)
  }

  function Apply(w: World, s: State, a: Action): State
    requires Enabled(w, s, a)
  {
    match a
    case Read(n, count) => s.Goto(n, Waiting(count))
    case Lock(n) =>
      s.(locks := s.locks[w.bucket(w.nics[n].prefix) := n]).Goto(n, Checking(s.Pc(n).start, s.Pc(n).start, 0))
    case Check(n) => s.Goto(n, CheckPc(w, s.cluster, n, s.Pc(n)))
    case CheckFails(n) => s.Goto(n, Closing(Error))
    case Write(n, ok) =>
      if ok then s.(counts := s.counts[n := s.Pc(n).count]).Goto(n, Closing(Requeue))
      else s.Goto(n, Closing(Error))
    case Upsert(n) =>
      var pc := s.Pc(n);
      if pc.i == |ObjectsOf(w, n, pc.start)| then s.Goto(n, Closing(Done))
      else s.(cluster := UpsertCluster(w, s, n)).Goto(n, Upserting(pc.start, pc.i + 1))
    case UpsertFails(n, applied) =>
      (if applied then s.(cluster := UpsertCluster(w, s, n)) else s).Goto(n, Closing(Error))
    case Unlock(n) => s.(locks := s.locks - {w.bucket(w.nics[n].prefix)}).Goto(n, Idle)
    case Delete(key) => s.(cluster := s.cluster - {key})
    case Create(key) => s.(cluster := s.cluster[key := ""])
  }

  // ---- runs ----------------------------------------------------------------------------------

  /** Nothing is running; the cluster and the stored counts are arbitrary. */
  predicate Quiet(s: State) {
    s.locks == map[] && s.pcs == map[]
  }

  const EMPTY: State := State(map[], map[], map[], map[])

  predicate ValidRun(w: World, s: State, acts: seq<Action>)
    decreases acts
  {
    acts == [] || (Enabled(w, s, acts[0]) && ValidRun(w, Apply(w, s, acts[0]), acts[1..]))
  }

  function After(w: World, s: State, acts: seq<Action>): State
    requires ValidRun(w, s, acts)
    decreases acts
  {
    if acts == [] then s else After(w, Apply(w, s, acts[0]), acts[1..])
  }

  lemma {:induction false} RunsCompose(w: World, s: State, a: seq<Action>, b: seq<Action>)
    requires ValidRun(w, s, a) && ValidRun(w, After(w, s, a), b)
    ensures ValidRun(w, s, a + b) && After(w, s, a + b) == After(w, After(w, s, a), b)
    decreases a
  {
    if a == [] {
      assert a + b == b;
    } else {
      assert (a + b)[0] == a[0] && (a + b)[1..] == a[1..] + b;
      RunsCompose(w, Apply(w, s, a[0]), a[1..], b);
    }
  }

  lemma RunStarts(w: World, s: State, a: Action, acts: seq<Action>)
    requires Enabled(w, s, a) && ValidRun(w, Apply(w, s, a), acts)
    ensures ValidRun(w, s, [a] + acts) && After(w, s, [a] + acts) == After(w, Apply(w, s, a), acts)
  {
    assert ([a] + acts)[1..] == acts;
  }

  lemma RunExtends(w: World, s: State, acts: seq<Action>, a: Action)
    requires ValidRun(w, s, acts) && Enabled(w, After(w, s, acts), a)
    ensures ValidRun(w, s, acts + [a]) && After(w, s, acts + [a]) == Apply(w, After(w, s, acts), a)
  {
    assert [a][1..] == [];
    RunsCompose(w, s, acts, [a]);
  }

  /** The key the next upsert of `n` writes, if it is about to write one. */
  predicate AboutToUpsert(w: World, s: State, n: string, o: Managed) {
    && n in w.nics && s.Pc(n).Upserting?
    && s.Pc(n).i < |ObjectsOf(w, n, s.Pc(n).start)|
    && o == ObjectsOf(w, n, s.Pc(n).start)[s.Pc(n).i]
  }

  // ---- the scan of the protocol is the scan of CollisionCount ---------------------------------

  /** What a Get on this cluster answers. */
  function ReaderOf(cluster: map<Key, string>): C.Reader {
    (key: Key) =>
      if key !in cluster then C.NotFound
      else if cluster[key] == "" then C.Found([])
      else C.Found([C.OwnerRef(C.NIC_KIND, cluster[key])])
  }

  lemma ReaderAgrees(cluster: map<Key, string>, key: Key, nic: Nic)
    requires nic.name != ""
    ensures C.Clear(ReaderOf(cluster)(key), nic) <==> ClearFor(cluster, key, nic.name)
    ensures !ReaderOf(cluster)(key).Failed?
  {
    if key in cluster && cluster[key] != "" {
      var owners := [C.OwnerRef(C.NIC_KIND, cluster[key])];
      assert C.FindOwnerKind(owners, C.NIC_KIND) == cluster[key];
    }
  }

  /** Where the scan leaves a controller, given what GetCollisionCount answers. */
  function PcAfter(start: nat, r: C.Outcome): Pc {
    match r
    case Count(c) => AfterScan(start, c)
    case MaxCollisions => Closing(MaxCollisions)
    case IcCollision => Closing(IcCollision)
    case ReadFailed => Closing(Error)
  }

  /** What remains of the scan, once object `i` of `count` is next and later counts would give `later`. */
  function Rest(objs: seq<Managed>, nic: Nic, get: C.Reader, count: nat, i: nat, later: C.Outcome): C.Outcome
    requires i <= |objs|
  {
    if count == MAX_COLLISIONS then C.MaxCollisions
    else if nic.IsDefault() then C.Count(count)
    else match C.FirstIssue(get, nic, objs, i)
      case NoCollision => C.Count(count)
      case OnIngressClass => C.IcCollision
      case Unreadable => C.ReadFailed
      case OnOther => later
  }

  function RestOfScan(w: World, cluster: map<Key, string>, n: string, count: nat, i: nat): C.Outcome
    requires n in w.nics && count <= MAX_COLLISIONS && i <= |ObjectsOf(w, n, count)|
  {
    Rest(ObjectsOf(w, n, count), w.nics[n], ReaderOf(cluster), count, i,
         if count == MAX_COLLISIONS then C.MaxCollisions
         else C.CountFrom(w.objects, ReaderOf(cluster), w.nics[n], count + 1))
  }

  /** One look moves on within the count, moves on to the next count, or ends the scan. */
  lemma LookAdvances(objs: seq<Managed>, nic: Nic, cluster: map<Key, string>, pc: Pc, later: C.Outcome)
    requires nic.name != "" && pc.Checking? && pc.count <= MAX_COLLISIONS && pc.i <= |objs|
    ensures var pc' := Look(objs, nic.IsDefault(), cluster, nic.name, pc);
            var rest := Rest(objs, nic, ReaderOf(cluster), pc.count, pc.i, later);
            if pc'.Checking? && pc'.count == pc.count then
              && pc'.start == pc.start && pc'.i == pc.i + 1 <= |objs|
              && Rest(objs, nic, ReaderOf(cluster), pc.count, pc'.i, later) == rest
            else if pc'.Checking? then
              pc' == Checking(pc.start, pc.count + 1, 0) && pc.count < MAX_COLLISIONS && rest == later
            else pc' == PcAfter(pc.start, rest)
  {
    if pc.i < |objs| {
      ReaderAgrees(cluster, objs[pc.i].key, nic);
    }
  }

  /** At its first object, what remains of the scan is the whole scan from that count on. */
  lemma RestFromStart(w: World, cluster: map<Key, string>, n: string, count: nat)
    requires n in w.nics && count <= MAX_COLLISIONS
    ensures RestOfScan(w, cluster, n, count, 0) == C.CountFrom(w.objects, ReaderOf(cluster), w.nics[n], count)
  {
  }

  lemma CheckAdvances(w: World, cluster: map<Key, string>, n: string, pc: Pc)
    requires n in w.nics && w.nics[n].name == n != "" && pc.Checking?
    requires pc.count <= MAX_COLLISIONS && pc.i <= |ObjectsOf(w, n, pc.count)|
    ensures var pc' := CheckPc(w, cluster, n, pc);
            if pc'.Checking? then
              && pc'.start == pc.start && pc'.count <= MAX_COLLISIONS && pc'.i <= |ObjectsOf(w, n, pc'.count)|
              && (pc'.count == pc.count + 1 || (pc'.count == pc.count && pc'.i == pc.i + 1))
              && RestOfScan(w, cluster, n, pc'.count, pc'.i) == RestOfScan(w, cluster, n, pc.count, pc.i)
            else pc' == PcAfter(pc.start, RestOfScan(w, cluster, n, pc.count, pc.i))
  {
    var later := if pc.count == MAX_COLLISIONS then C.MaxCollisions
                 else C.CountFrom(w.objects, ReaderOf(cluster), w.nics[n], pc.count + 1);
    LookAdvances(ObjectsOf(w, n, pc.count), w.nics[n], cluster, pc, later);
    if pc.count < MAX_COLLISIONS {
      RestFromStart(w, cluster, n, pc.count + 1);
    }
  }

  /** Undisturbed, the single looks of the protocol take a controller exactly
      where `GetCollisionCount` on that cluster says. */
  lemma {:induction false} ScanFinishes(w: World, s: State, n: string, pc: Pc) returns (acts: seq<Action>)
    requires n in w.nics && w.nics[n].name == n != "" && s.Pc(n) == pc && pc.Checking?
    requires pc.count <= MAX_COLLISIONS && pc.i <= |ObjectsOf(w, n, pc.count)|
    ensures forall i | 0 <= i < |acts| :: acts[i] == Check(n)
    ensures ValidRun(w, s, acts)
    ensures After(w, s, acts) == s.Goto(n, PcAfter(pc.start, RestOfScan(w, s.cluster, n, pc.count, pc.i)))
    decreases MAX_COLLISIONS - pc.count, |ObjectsOf(w, n, pc.count)| - pc.i
  {
    CheckAdvances(w, s.cluster, n, pc);
    var pc' := CheckPc(w, s.cluster, n, pc);
    var last := PcAfter(pc.start, RestOfScan(w, s.cluster, n, pc.count, pc.i));
    var s' := Apply(w, s, Check(n));
    assert s' == s.Goto(n, pc');
    var rest := [];
    if pc'.Checking? {
      rest := ScanFinishes(w, s', n, pc');
      assert s'.Goto(n, last) == s.Goto(n, last);
    }
    acts := [Check(n)] + rest;
    RunStarts(w, s, Check(n), rest);
  }

  lemma ScanRefinesGetCollisionCount(w: World, s: State, n: string, start: nat) returns (acts: seq<Action>)
    requires WellFormed(w) && n in w.nics && start <= MAX_COLLISIONS
    requires s.Pc(n) == Checking(start, start, 0)
    ensures forall i | 0 <= i < |acts| :: acts[i] == Check(n)
    ensures ValidRun(w, s, acts)
    ensures After(w, s, acts) ==
            s.Goto(n, PcAfter(start, C.CountFrom(w.objects, ReaderOf(s.cluster), w.nics[n], start)))
  {
    acts := ScanFinishes(w, s, n, s.Pc(n));
    RestFromStart(w, s.cluster, n, start);
  }
}
