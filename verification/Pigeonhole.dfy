/** Five counts are enough for five controllers: without foreign objects and
    deletions, every count a controller passes over is pinned by another one,
    even if controllers work from outdated copies of themselves. */
module Pigeonhole {
  import opened NginxManifests
  import opened CollisionProtocol
  import opened ProtocolSafety
  import C = CollisionCount

  /** The non-default controllers that chose this prefix. */
  ghost function Users(w: World, p: string): set<string> {
    set n | n in w.nics && !w.nics[n].IsDefault() && w.nics[n].prefix == p
  }

  /** `k` is one of the prefix-derived objects of `n` at count `c`. */
  ghost predicate KeyAt(w: World, n: string, c: nat, k: Key)
    requires n in w.nics
  {
    PrefixKind(k.kind) && exists i | 0 <= i < |ObjectsOf(w, n, c)| :: ObjectsOf(w, n, c)[i].key == k
  }

  /** Every prefix-derived object belongs to the one controller that stores its count. */
  ghost predicate Owned(w: World, s: State, p: string) {
    forall n, c, k | n in Users(w, p) && k in s.cluster && KeyAt(w, n, c, k) ::
      s.cluster[k] in Users(w, p) && s.Count(s.cluster[k]) == c
  }

  ghost predicate OneOwnerPerCount(w: World, s: State, p: string) {
    forall n, c, k1, k2 | n in Users(w, p) && k1 in s.cluster && k2 in s.cluster
                          && KeyAt(w, n, c, k1) && KeyAt(w, n, c, k2) ::
      s.cluster[k1] == s.cluster[k2]
  }

  /** Another controller has an object of this count. */
  ghost predicate Blocked(w: World, s: State, n: string, c: nat)
    requires n in w.nics
  {
    exists k | k in s.cluster :: KeyAt(w, n, c, k) && s.cluster[k] != n
  }

  /** Another controller of the prefix stores this count. */
  ghost predicate Held(w: World, s: State, p: string, n: string, c: nat) {
    exists h | h in Users(w, p) && h != n :: s.Count(h) == c
  }

  /** What happens besides the reconciles: controllers read outdated copies of
      themselves, or others delete objects. Either is harmless, not both. */
  datatype Nuisance = OutdatedReads | Deletions

  /** Why a controller may pass over a count, in a form that lasts. */
  ghost predicate Pinned(w: World, s: State, p: string, n: string, c: nat, x: Nuisance)
    requires n in w.nics
  {
    if x.OutdatedReads? then Blocked(w, s, n, c) else Held(w, s, p, n, c)
  }

  ghost predicate PinnedBelow(w: World, s: State, p: string, n: string, c: nat, x: Nuisance)
    requires n in w.nics
  {
    forall d: nat | d < c :: Pinned(w, s, p, n, d, x)
  }

  ghost predicate OwnsNothing(w: World, s: State, p: string, n: string) {
    forall m, c, k | m in Users(w, p) && k in s.cluster && KeyAt(w, m, c, k) :: s.cluster[k] != n
  }

  /** A copy of the controller with this count is the stored one, or an earlier one:
      stored counts only grow. */
  predicate CopyOf(s: State, n: string, count: nat, x: Nuisance) {
    if x.OutdatedReads? then count <= s.Count(n) else count == s.Count(n)
  }

  /** The reconcile under way started from a copy of the controller and had reason to
      pass every count below its own; one that goes on to move owns nothing. */
  ghost predicate JustifiedAt(w: World, s: State, p: string, n: string, pc: Pc, x: Nuisance)
    requires n in w.nics
  {
    && PinnedBelow(w, s, p, n, s.Count(n), x)
    && match pc
       case Waiting(start) => CopyOf(s, n, start, x)
       case Checking(start, c, _) =>
         && CopyOf(s, n, start, x) && PinnedBelow(w, s, p, n, c, x)
         && (start == s.Count(n) && start < c ==> OwnsNothing(w, s, p, n))
       case Writing(start, c) =>
         && CopyOf(s, n, start, x) && PinnedBelow(w, s, p, n, c, x)
         && (start == s.Count(n) ==> OwnsNothing(w, s, p, n))
       case Upserting(start, _) => CopyOf(s, n, start, x)
       case _ => true
  }

  ghost predicate Justified(w: World, s: State, p: string, n: string, x: Nuisance)
    requires n in w.nics
  {
    JustifiedAt(w, s, p, n, s.Pc(n), x)
  }

  ghost predicate PrefixInv(w: World, s: State, p: string, x: Nuisance) {
    && Inv(w, s, false)
    && Owned(w, s, p)
    && OneOwnerPerCount(w, s, p)
    && forall n | n in Users(w, p) :: Justified(w, s, p, n, x)
  }

  /** No foreign object, and of the two nuisances only the given one. */
  predicate Tolerated(s: State, a: Action, x: Nuisance) {
    match a
    case Delete(k) => x.Deletions? || !PrefixKind(k.kind)
    case Create(k) => !PrefixKind(k.kind)
    case Read(n, c) => CopyOf(s, n, c, x)
    case _ => true
  }

  predicate ToleratedRun(w: World, s: State, acts: seq<Action>, x: Nuisance)
    requires ValidRun(w, s, acts)
    decreases acts
  {
    acts == [] || (Tolerated(s, acts[0], x) && ToleratedRun(w, Apply(w, s, acts[0]), acts[1..], x))
  }

  // ---- keys ----------------------------------------------------------------------------------

  lemma KeyAtIsPrefixKey(w: World, n: string, c: nat, k: Key)
    requires WellFormed(w) && n in w.nics && KeyAt(w, n, c, k)
    ensures PrefixKey(w.nics[n], c, k)
  {
    var i :| 0 <= i < |ObjectsOf(w, n, c)| && ObjectsOf(w, n, c)[i].key == k;
    assert ObjectShape(w.nics[n], c, ObjectsOf(w, n, c)[i]);
  }

  /** Users of one prefix compete for the same keys. */
  lemma KeyAtShared(w: World, p: string, n: string, m: string, c: nat, k: Key)
    requires WellFormed(w) && n in Users(w, p) && m in Users(w, p) && KeyAt(w, n, c, k)
    ensures KeyAt(w, m, c, k)
  {
    var i :| 0 <= i < |ObjectsOf(w, n, c)| && ObjectsOf(w, n, c)[i].key == k;
    assert w.nics[n].ResourceName(c) == w.nics[m].ResourceName(c);
    assert SamePrefixKeys(w.objects(w.nics[n], c), w.objects(w.nics[m], c));
    assert ObjectsOf(w, m, c)[i].key == k;
  }

  /** Only a user of the prefix, at that very count, writes one of its objects. */
  lemma WriterOfKey(w: World, s: State, p: string, n: string, c: nat, m: string, o: Managed)
    requires WellFormed(w) && n in Users(w, p) && AboutToUpsert(w, s, m, o) && KeyAt(w, n, c, o.key)
    ensures m in Users(w, p) && s.Pc(m).start == c && o.Labelled()
  {
    assert ObjectShape(w.nics[m], s.Pc(m).start, o);
    KeyAtIsPrefixKey(w, n, c, o.key);
    PrefixKeysDisjoint(w.nics[n], c, w.nics[m], s.Pc(m).start, o.key);
  }

  /** While a user is writing, whatever exists at its count is already its own. */
  lemma WriterOwnsItsCount(w: World, s: State, p: string, m: string, k: Key, x: Nuisance)
    requires WellFormed(w) && PrefixInv(w, s, p, x) && m in Users(w, p) && s.Pc(m).Upserting?
    requires k in s.cluster && KeyAt(w, m, s.Pc(m).start, k)
    ensures s.cluster[k] == m
  {
    var objs := ObjectsOf(w, m, s.Pc(m).start);
    var i :| 0 <= i < |objs| && objs[i].key == k;
    assert NicInv(w, s, m, false);
    assert NotOthers(s.cluster, k, m);
    assert s.cluster[k] in Users(w, p);
  }

  /** So a controller that writes is not working from an outdated count: the
      objects of a count it has left behind block it. */
  lemma WriterIsCurrent(w: World, s: State, p: string, m: string, x: Nuisance)
    requires WellFormed(w) && PrefixInv(w, s, p, x) && m in Users(w, p) && s.Pc(m).Upserting?
    ensures s.Pc(m).start == s.Count(m)
  {
    assert Justified(w, s, p, m, x);
    if s.Pc(m).start < s.Count(m) {
      assert Pinned(w, s, p, m, s.Pc(m).start, x);
      var k :| k in s.cluster && KeyAt(w, m, s.Pc(m).start, k) && s.cluster[k] != m;
      WriterOwnsItsCount(w, s, p, m, k, x);
      assert false;
    }
  }

  // ---- one step ------------------------------------------------------------------------------

  lemma UpsertKeepsOwner(w: World, s: State, p: string, m: string, o: Managed, n: string, c: nat, k: Key, x: Nuisance)
    requires WellFormed(w) && PrefixInv(w, s, p, x) && AboutToUpsert(w, s, m, o)
    requires n in Users(w, p) && k in s.cluster && KeyAt(w, n, c, k)
    ensures var cluster' := UpsertObject(s.cluster, o, m); k in cluster' && cluster'[k] == s.cluster[k]
  {
    if o.key == k {
      WriterOfKey(w, s, p, n, c, m, o);
      KeyAtShared(w, p, n, m, c, k);
      WriterOwnsItsCount(w, s, p, m, k, x);
    }
  }

  /** What a step does to the prefix-derived objects: an upsert, a deletion, or nothing. */
  lemma ClusterStep(w: World, s: State, a: Action, x: Nuisance) returns (o: Managed)
    requires Enabled(w, s, a) && Tolerated(s, a, x)
    ensures var cluster' := Apply(w, s, a).cluster;
            || ((a.Upsert? || a.UpsertFails?) && AboutToUpsert(w, s, a.n, o) && cluster' == UpsertObject(s.cluster, o, a.n))
            || (forall k: Key | PrefixKind(k.kind) ::
                  && (k in cluster' <==> k in s.cluster && a != Delete(k))
                  && (k in cluster' ==> cluster'[k] == s.cluster[k]))
  {
    o := Managed(Key(Namespace, "", ""), map[]);
    if (a.Upsert? || a.UpsertFails?) && s.Pc(a.n).i < |ObjectsOf(w, a.n, s.Pc(a.n).start)| {
      o := ObjectsOf(w, a.n, s.Pc(a.n).start)[s.Pc(a.n).i];
    }
  }

  /** Prefix-derived objects stay unless deleted, and with them their owner. */
  lemma OwnerStable(w: World, s: State, a: Action, p: string, n: string, c: nat, k: Key, x: Nuisance)
    requires WellFormed(w) && PrefixInv(w, s, p, x) && Enabled(w, s, a) && Tolerated(s, a, x)
    requires n in Users(w, p) && k in s.cluster && KeyAt(w, n, c, k)
    ensures k in Apply(w, s, a).cluster <==> a != Delete(k)
    ensures k in Apply(w, s, a).cluster ==> Apply(w, s, a).cluster[k] == s.cluster[k]
  {
    var o := ClusterStep(w, s, a, x);
    if (a.Upsert? || a.UpsertFails?) && AboutToUpsert(w, s, a.n, o) {
      UpsertKeepsOwner(w, s, p, a.n, o, n, c, k, x);
    }
  }

  /** An object that appears is written by the user that stores its count. */
  lemma NewObject(w: World, s: State, a: Action, p: string, n: string, c: nat, k: Key, x: Nuisance)
    requires WellFormed(w) && PrefixInv(w, s, p, x) && Enabled(w, s, a) && Tolerated(s, a, x)
    requires n in Users(w, p) && k in Apply(w, s, a).cluster && k !in s.cluster && KeyAt(w, n, c, k)
    ensures (a.Upsert? || a.UpsertFails?) && a.n in Users(w, p)
    ensures Apply(w, s, a).cluster[k] == a.n && s.Pc(a.n).Upserting? && s.Pc(a.n).start == c && s.Count(a.n) == c
  {
    var o := ClusterStep(w, s, a, x);
    assert o.key == k;
    WriterOfKey(w, s, p, n, c, a.n, o);
    WriterIsCurrent(w, s, p, a.n, x);
  }

  lemma CountStep(w: World, s: State, a: Action, n: string)
    requires Enabled(w, s, a)
    ensures Apply(w, s, a).Count(n) == if a.Write? && a.ok && a.n == n then s.Pc(n).count else s.Count(n)
  {
  }

  lemma StepKeepsOwned(w: World, s: State, a: Action, p: string, n: string, c: nat, k: Key, x: Nuisance)
    requires WellFormed(w) && PrefixInv(w, s, p, x) && Enabled(w, s, a) && Tolerated(s, a, x)
    requires n in Users(w, p) && k in Apply(w, s, a).cluster && KeyAt(w, n, c, k)
    ensures var s' := Apply(w, s, a); s'.cluster[k] in Users(w, p) && s'.Count(s'.cluster[k]) == c
  {
    if k in s.cluster {
      OwnerStable(w, s, a, p, n, c, k, x);
      CountStep(w, s, a, s.cluster[k]);
      if a.Write? && a.ok && a.n in Users(w, p) {
        assert Justified(w, s, p, a.n, x);
      }
    } else {
      NewObject(w, s, a, p, n, c, k, x);
      CountStep(w, s, a, a.n);
    }
  }

  lemma StepKeepsOneOwner(w: World, s: State, a: Action, p: string, n: string, c: nat, k1: Key, k2: Key, x: Nuisance)
    requires WellFormed(w) && PrefixInv(w, s, p, x) && Enabled(w, s, a) && Tolerated(s, a, x)
    requires n in Users(w, p) && k1 in Apply(w, s, a).cluster && k2 in Apply(w, s, a).cluster
    requires KeyAt(w, n, c, k1) && KeyAt(w, n, c, k2)
    ensures Apply(w, s, a).cluster[k1] == Apply(w, s, a).cluster[k2]
  {
    if k1 in s.cluster { OwnerStable(w, s, a, p, n, c, k1, x); } else { NewObject(w, s, a, p, n, c, k1, x); }
    if k2 in s.cluster { OwnerStable(w, s, a, p, n, c, k2, x); } else { NewObject(w, s, a, p, n, c, k2, x); }
    if k1 in s.cluster && k2 !in s.cluster {
      KeyAtShared(w, p, n, a.n, c, k1);
      WriterOwnsItsCount(w, s, p, a.n, k1, x);
    } else if k2 in s.cluster && k1 !in s.cluster {
      KeyAtShared(w, p, n, a.n, c, k2);
      WriterOwnsItsCount(w, s, p, a.n, k2, x);
    }
  }

  // ---- counts stay pinned --------------------------------------------------------------------

  /** A holder leaves a count only to one that stays there: two users of a prefix never scan at once. */
  lemma HeldStable(w: World, s: State, a: Action, p: string, n: string, d: nat)
    requires WellFormed(w) && PrefixInv(w, s, p, Deletions) && Enabled(w, s, a)
    requires n in Users(w, p) && Held(w, s, p, n, d)
    requires d < s.Count(n) || s.Pc(n).Checking? || s.Pc(n).Writing?
    ensures Held(w, Apply(w, s, a), p, n, d)
  {
    var h :| h in Users(w, p) && h != n && s.Count(h) == d;
    CountStep(w, s, a, h);
    if a.Write? && a.ok && a.n == h {
      assert Justified(w, s, p, h, Deletions) && NicInv(w, s, h, false) && NicInv(w, s, n, false);
      assert Pinned(w, s, p, h, d, Deletions);
      var h' :| h' in Users(w, p) && h' != h && s.Count(h') == d;
      CountStep(w, s, a, h');
    }
  }

  lemma BlockedStable(w: World, s: State, a: Action, p: string, n: string, d: nat)
    requires WellFormed(w) && PrefixInv(w, s, p, OutdatedReads) && Enabled(w, s, a) && Tolerated(s, a, OutdatedReads)
    requires n in Users(w, p) && Blocked(w, s, n, d)
    ensures Blocked(w, Apply(w, s, a), n, d)
  {
    var k :| k in s.cluster && KeyAt(w, n, d, k) && s.cluster[k] != n;
    OwnerStable(w, s, a, p, n, d, k, OutdatedReads);
  }

  lemma PinnedStable(w: World, s: State, a: Action, p: string, n: string, c: nat, x: Nuisance)
    requires WellFormed(w) && PrefixInv(w, s, p, x) && Enabled(w, s, a) && Tolerated(s, a, x)
    requires n in Users(w, p) && PinnedBelow(w, s, p, n, c, x)
    requires c <= s.Count(n) || s.Pc(n).Checking? || s.Pc(n).Writing?
    ensures PinnedBelow(w, Apply(w, s, a), p, n, c, x)
  {
    forall d: nat | d < c
      ensures Pinned(w, Apply(w, s, a), p, n, d, x)
    {
      assert Pinned(w, s, p, n, d, x);
      if x.OutdatedReads? {
        BlockedStable(w, s, a, p, n, d);
      } else {
        HeldStable(w, s, a, p, n, d);
      }
    }
  }

  /** Steps of others give a controller nothing. */
  lemma OwnsNothingStable(w: World, s: State, a: Action, p: string, n: string, x: Nuisance)
    requires WellFormed(w) && PrefixInv(w, s, p, x) && Enabled(w, s, a) && Tolerated(s, a, x)
    requires OwnsNothing(w, s, p, n) && Actor(a) != n
    ensures OwnsNothing(w, Apply(w, s, a), p, n)
  {
    var s' := Apply(w, s, a);
    forall m, c, k | m in Users(w, p) && k in s'.cluster && KeyAt(w, m, c, k)
      ensures s'.cluster[k] != n
    {
      if k in s.cluster {
        OwnerStable(w, s, a, p, m, c, k, x);
      } else {
        NewObject(w, s, a, p, m, c, k, x);
      }
    }
  }

  // ---- a look --------------------------------------------------------------------------------

  /** The object that makes a scan pass its count: it pins the count, and the
      controller that stores this count owns nothing. */
  lemma PassedOver(w: World, s: State, p: string, n: string, c: nat, k: Key, x: Nuisance)
    requires WellFormed(w) && PrefixInv(w, s, p, x) && n in Users(w, p)
    requires k in s.cluster && KeyAt(w, n, c, k) && s.cluster[k] != n
    ensures Pinned(w, s, p, n, c, x)
    ensures c == s.Count(n) ==> OwnsNothing(w, s, p, n)
  {
    assert s.cluster[k] in Users(w, p) && s.Count(s.cluster[k]) == c;
    if c == s.Count(n) {
      forall m, d, k' | m in Users(w, p) && k' in s.cluster && KeyAt(w, m, d, k')
        ensures s.cluster[k'] != n
      {
        if s.cluster[k'] == n {
          KeyAtShared(w, p, m, n, d, k');
          assert false;
        }
      }
    }
  }

  /** A look passes a count over only because of an object of another controller. */
  lemma LookPasses(w: World, s: State, n: string, pc: Pc) returns (k: Key)
    requires WellFormed(w) && n in w.nics && pc.Checking? && pc.i <= |ObjectsOf(w, n, pc.count)|
    ensures var pc' := CheckPc(w, s.cluster, n, pc);
            && (pc'.Checking? || pc'.Writing? || pc'.Upserting? || pc'.Closing?)
            && (!pc'.Closing? ==> pc'.start == pc.start)
            && (pc'.Writing? ==> pc'.count == pc.count != pc.start)
            && (pc'.Checking? && pc'.count != pc.count ==>
                  && pc'.count == pc.count + 1
                  && k in s.cluster && KeyAt(w, n, pc.count, k) && s.cluster[k] != n)
  {
    var objs := ObjectsOf(w, n, pc.count);
    k := IcKey(w.nics[n]);
    if pc.i < |objs| {
      assert ObjectShape(w.nics[n], pc.count, objs[pc.i]);
      k := objs[pc.i].key;
    }
  }

  lemma MoveJustified(w: World, s: State, p: string, n: string, pc: Pc, pc': Pc, x: Nuisance)
    requires n in w.nics && pc.Checking? && pc.start <= pc.count && JustifiedAt(w, s, p, n, pc, x)
    requires pc'.Checking? || pc'.Writing? || pc'.Upserting? || pc'.Closing?
    requires !pc'.Closing? ==> pc'.start == pc.start
    requires pc'.Writing? ==> pc'.count == pc.count != pc.start
    requires pc'.Checking? ==> pc'.count == pc.count || pc'.count == pc.count + 1
    requires pc'.Checking? && pc'.count == pc.count + 1 ==> Pinned(w, s, p, n, pc.count, x)
    requires pc'.Checking? && pc'.count == pc.count + 1 && pc.count == s.Count(n) ==> OwnsNothing(w, s, p, n)
    ensures JustifiedAt(w, s, p, n, pc', x)
  {
  }

  lemma LookJustified(w: World, s: State, p: string, n: string, pc: Pc, x: Nuisance)
    requires WellFormed(w) && PrefixInv(w, s, p, x) && n in Users(w, p)
    requires pc.Checking? && pc.start <= pc.count && pc.i <= |ObjectsOf(w, n, pc.count)|
    requires JustifiedAt(w, s, p, n, pc, x)
    ensures JustifiedAt(w, s, p, n, CheckPc(w, s.cluster, n, pc), x)
  {
    var k := LookPasses(w, s, n, pc);
    if k in s.cluster && KeyAt(w, n, pc.count, k) && s.cluster[k] != n {
      PassedOver(w, s, p, n, pc.count, k, x);
    }
    MoveJustified(w, s, p, n, pc, CheckPc(w, s.cluster, n, pc), x);
  }

  lemma GotoJustified(w: World, s: State, p: string, n: string, pc: Pc, x: Nuisance)
    requires n in Users(w, p) && JustifiedAt(w, s, p, n, pc, x)
    ensures Justified(w, s.Goto(n, pc), p, n, x)
  {
    var s' := s.Goto(n, pc);
    forall d: nat | Pinned(w, s, p, n, d, x)
      ensures Pinned(w, s', p, n, d, x)
    {
      if x.Deletions? {
        var h :| h in Users(w, p) && h != n && s.Count(h) == d;
        assert s'.Count(h) == d;
      }
    }
    assert OwnsNothing(w, s, p, n) ==> OwnsNothing(w, s', p, n);
  }

  lemma CheckJustified(w: World, s: State, p: string, n: string, x: Nuisance)
    requires WellFormed(w) && PrefixInv(w, s, p, x) && n in Users(w, p) && Enabled(w, s, Check(n))
    ensures Justified(w, Apply(w, s, Check(n)), p, n, x)
  {
    assert Justified(w, s, p, n, x) && NicInv(w, s, n, false);
    LookJustified(w, s, p, n, s.Pc(n), x);
    GotoJustified(w, s, p, n, CheckPc(w, s.cluster, n, s.Pc(n)), x);
  }

  lemma OwnStepJustified(w: World, s: State, a: Action, p: string, n: string, x: Nuisance)
    requires WellFormed(w) && PrefixInv(w, s, p, x) && Enabled(w, s, a) && Tolerated(s, a, x)
    requires n in Users(w, p) && Actor(a) == n
    ensures Justified(w, Apply(w, s, a), p, n, x)
  {
    if a.Check? {
      CheckJustified(w, s, p, n, x);
    } else {
      assert Justified(w, s, p, n, x);
      CountStep(w, s, a, n);
      PinnedStable(w, s, a, p, n, s.Count(n), x);
      if a.Write? {
        PinnedStable(w, s, a, p, n, s.Pc(n).count, x);
      }
    }
  }

  lemma OtherStepJustified(w: World, s: State, a: Action, p: string, n: string, x: Nuisance)
    requires WellFormed(w) && PrefixInv(w, s, p, x) && Enabled(w, s, a) && Tolerated(s, a, x)
    requires n in Users(w, p) && Actor(a) != n
    ensures Justified(w, Apply(w, s, a), p, n, x)
  {
    assert Justified(w, s, p, n, x);
    OtherStepKeepsPc(w, s, a, n);
    CountStep(w, s, a, n);
    PinnedStable(w, s, a, p, n, s.Count(n), x);
    var pc := s.Pc(n);
    if pc.Checking? || pc.Writing? {
      PinnedStable(w, s, a, p, n, pc.count, x);
      if OwnsNothing(w, s, p, n) {
        OwnsNothingStable(w, s, a, p, n, x);
      }
    }
  }

  lemma StepKeepsPrefixInv(w: World, s: State, a: Action, p: string, x: Nuisance)
    requires WellFormed(w) && PrefixInv(w, s, p, x) && Enabled(w, s, a) && Tolerated(s, a, x)
    ensures PrefixInv(w, Apply(w, s, a), p, x)
  {
    var s' := Apply(w, s, a);
    StepKeepsInv(w, s, a, false);
    forall n, c, k | n in Users(w, p) && k in s'.cluster && KeyAt(w, n, c, k)
      ensures s'.cluster[k] in Users(w, p) && s'.Count(s'.cluster[k]) == c
    {
      StepKeepsOwned(w, s, a, p, n, c, k, x);
    }
    forall n, c, k1, k2 | n in Users(w, p) && k1 in s'.cluster && k2 in s'.cluster
                          && KeyAt(w, n, c, k1) && KeyAt(w, n, c, k2)
      ensures s'.cluster[k1] == s'.cluster[k2]
    {
      StepKeepsOneOwner(w, s, a, p, n, c, k1, k2, x);
    }
    forall n | n in Users(w, p)
      ensures Justified(w, s', p, n, x)
    {
      if Actor(a) == n {
        OwnStepJustified(w, s, a, p, n, x);
      } else {
        OtherStepJustified(w, s, a, p, n, x);
      }
    }
  }

  // ---- whole runs ----------------------------------------------------------------------------

  /** At rest, with no prefix-derived object of this prefix and all its counts at zero. */
  ghost predicate Fresh(w: World, s: State, p: string) {
    && Quiet(s)
    && (forall n | n in Users(w, p) :: s.Count(n) == 0)
    && (forall n, c, k | n in Users(w, p) && KeyAt(w, n, c, k) :: k !in s.cluster)
  }

  lemma FreshIsConsistent(w: World, s: State, p: string, x: Nuisance)
    requires Fresh(w, s, p)
    ensures PrefixInv(w, s, p, x)
  {
  }

  lemma {:induction false} RunKeepsPrefixInv(w: World, s: State, acts: seq<Action>, p: string, x: Nuisance)
    requires WellFormed(w) && ValidRun(w, s, acts) && ToleratedRun(w, s, acts, x) && PrefixInv(w, s, p, x)
    ensures PrefixInv(w, After(w, s, acts), p, x)
    decreases acts
  {
    if acts == [] {
    } else {
      StepKeepsPrefixInv(w, s, acts[0], p, x);
      RunKeepsPrefixInv(w, Apply(w, s, acts[0]), acts[1..], p, x);
    }
  }

  /** A pinned count is stored by another user. */
  lemma HolderOf(w: World, s: State, p: string, n: string, d: nat, x: Nuisance) returns (h: string)
    requires PrefixInv(w, s, p, x) && n in Users(w, p) && Pinned(w, s, p, n, d, x)
    ensures h in Users(w, p) && h != n && s.Count(h) == d
  {
    if x.OutdatedReads? {
      var k :| k in s.cluster && KeyAt(w, n, d, k) && s.cluster[k] != n;
      h := s.cluster[k];
    } else {
      h :| h in Users(w, p) && h != n && s.Count(h) == d;
    }
  }

  /** The invariant behind the bound: below a stored count each count is stored by another user. */
  lemma StoredCountsAreStacked(w: World, s: State, p: string, n: string, d: nat, x: Nuisance) returns (h: string)
    requires PrefixInv(w, s, p, x) && n in Users(w, p) && d < s.Count(n)
    ensures h in Users(w, p) && h != n && s.Count(h) == d
  {
    assert Justified(w, s, p, n, x);
    h := HolderOf(w, s, p, n, d, x);
  }

  /** A controller that had to pass `c` counts has `c` distinct competitors. */
  lemma {:induction false} Holders(w: World, s: State, p: string, n: string, c: nat, x: Nuisance) returns (hs: set<string>)
    requires PrefixInv(w, s, p, x) && n in Users(w, p) && PinnedBelow(w, s, p, n, c, x)
    ensures |hs| == c && hs <= Users(w, p) - {n}
    ensures forall h | h in hs :: s.Count(h) < c
  {
    if c == 0 {
      hs := {};
    } else {
      var rest := Holders(w, s, p, n, c - 1, x);
      var h := HolderOf(w, s, p, n, c - 1, x);
      hs := rest + {h};
    }
  }

  lemma FiveHolders(w: World, s: State, p: string, n: string, x: Nuisance)
    requires PrefixInv(w, s, p, x) && n in Users(w, p) && PinnedBelow(w, s, p, n, 5, x)
    ensures |Users(w, p)| > 5
  {
    var hs := Holders(w, s, p, n, 5, x);
    SubsetSmaller(hs + {n}, Users(w, p));
  }

  lemma SubsetSmaller<T>(a: set<T>, b: set<T>)
    requires a <= b
    ensures |a| <= |b|
  {
    assert b == a + (b - a);
  }

  lemma StepAvoidsMaxCollisions(w: World, s: State, a: Action, p: string, n: string, x: Nuisance)
    requires n != "" && PrefixInv(w, s, p, x) && Enabled(w, s, a)
    requires n in Users(w, p) && |Users(w, p)| <= 5 && s.Pc(n) != Closing(MaxCollisions)
    ensures Apply(w, s, a).Pc(n) != Closing(MaxCollisions)
  {
    assert Justified(w, s, p, n, x) && NicInv(w, s, n, false);
    if Actor(a) != n {
      OtherStepKeepsPc(w, s, a, n);
    } else if a.Check? && s.Pc(n).count == MAX_COLLISIONS {
      FiveHolders(w, s, p, n, x);
    }
  }

  lemma {:induction false} NeverEndsInMaxCollisions(w: World, s: State, acts: seq<Action>, p: string, n: string, x: Nuisance)
    requires WellFormed(w) && ValidRun(w, s, acts) && ToleratedRun(w, s, acts, x)
    requires PrefixInv(w, s, p, x) && n in Users(w, p) && |Users(w, p)| <= 5
    requires s.Pc(n) != Closing(MaxCollisions)
    ensures After(w, s, acts).Pc(n) != Closing(MaxCollisions)
    decreases acts
  {
    if acts == [] {
    } else {
      StepAvoidsMaxCollisions(w, s, acts[0], p, n, x);
      StepKeepsPrefixInv(w, s, acts[0], p, x);
      NeverEndsInMaxCollisions(w, Apply(w, s, acts[0]), acts[1..], p, n, x);
    }
  }

  /** At most five controllers on a prefix: no reconcile of any run, with outdated
      reads or with deletions, reports too many collisions. */
  lemma FiveControllersAlwaysFit(w: World, s: State, acts: seq<Action>, p: string, n: string, x: Nuisance)
    requires WellFormed(w) && Fresh(w, s, p) && ValidRun(w, s, acts) && ToleratedRun(w, s, acts, x)
    requires n in Users(w, p) && |Users(w, p)| <= 5
    ensures After(w, s, acts).Pc(n) != Closing(MaxCollisions)
  {
    FreshIsConsistent(w, s, p, x);
    NeverEndsInMaxCollisions(w, s, acts, p, n, x);
  }

  // ---- and no more than five -----------------------------------------------------------------

  /** On a readable cluster the first object that is not clear decides. */
  lemma {:induction false} FirstIssueOther(cluster: map<Key, string>, nic: Nic, objs: seq<Managed>, i: nat)
    requires nic.name != "" && i <= |objs|
    ensures var r := C.FirstIssue(ReaderOf(cluster), nic, objs, i);
            && r != C.Unreadable
            && (r == C.OnOther ==> exists j | i <= j < |objs| ::
                  objs[j].Labelled() && objs[j].key.kind != IngressClass && !ClearFor(cluster, objs[j].key, nic.name))
    decreases |objs| - i
  {
    if i == |objs| {
    } else {
      ReaderAgrees(cluster, objs[i].key, nic);
      FirstIssueOther(cluster, nic, objs, i + 1);
    }
  }

  /** While its IngressClass is clear, a count is taken exactly when another
      controller, or anybody else, has one of its objects. */
  lemma TakenIffBlocked(w: World, s: State, n: string, d: nat)
    requires WellFormed(w) && n in w.nics && !w.nics[n].IsDefault() && ClearFor(s.cluster, IcKey(w.nics[n]), n)
    ensures C.Collides(w.objects, ReaderOf(s.cluster), w.nics[n], d) == C.OnOther <==> Blocked(w, s, n, d)
  {
    var nic, get, objs := w.nics[n], ReaderOf(s.cluster), ObjectsOf(w, n, d);
    FirstIssueOther(s.cluster, nic, objs, 0);
    C.FirstIssueNone(get, nic, objs, 0);
    C.FirstIssueIc(w.objects, get, nic, d, 0);
    ReaderAgrees(s.cluster, IcKey(nic), nic);
    if C.FirstIssue(get, nic, objs, 0) == C.OnOther {
      var j :| 0 <= j < |objs| && objs[j].Labelled() && objs[j].key.kind != IngressClass && !ClearFor(s.cluster, objs[j].key, n);
      assert ObjectShape(nic, d, objs[j]);
      assert KeyAt(w, n, d, objs[j].key);
    }
    if Blocked(w, s, n, d) {
      var k :| k in s.cluster && KeyAt(w, n, d, k) && s.cluster[k] != n;
      var j :| 0 <= j < |objs| && objs[j].key == k;
      assert ObjectShape(nic, d, objs[j]);
      ReaderAgrees(s.cluster, k, nic);
    }
  }

  /** A scan that nobody disturbs gives up exactly when every count from its own on is taken. */
  lemma ScanGivesUpIff(w: World, s: State, n: string, c: nat) returns (acts: seq<Action>)
    requires WellFormed(w) && n in w.nics && !w.nics[n].IsDefault() && ClearFor(s.cluster, IcKey(w.nics[n]), n)
    requires c <= MAX_COLLISIONS && s.Pc(n) == Checking(c, c, 0)
    ensures ValidRun(w, s, acts) && !After(w, s, acts).Pc(n).Checking?
    ensures After(w, s, acts).Pc(n) == Closing(MaxCollisions) <==>
            forall d: nat | c <= d < MAX_COLLISIONS :: Blocked(w, s, n, d)
  {
    acts := ScanRefinesGetCollisionCount(w, s, n, c);
    C.MaxIffAllTaken(w.objects, ReaderOf(s.cluster), w.nics[n], c);
    forall d: nat | c <= d < MAX_COLLISIONS
      ensures C.Collides(w.objects, ReaderOf(s.cluster), w.nics[n], d) == C.OnOther <==> Blocked(w, s, n, d)
    {
      TakenIffBlocked(w, s, n, d);
    }
  }

  // ---- stored counts over a run --------------------------------------------------------------

  /** How often the stored count of `n` changes in a run. */
  function CountChanges(w: World, s: State, acts: seq<Action>, n: string): nat
    requires ValidRun(w, s, acts)
    decreases acts
  {
    if acts == [] then 0
    else
      var s' := Apply(w, s, acts[0]);
      (if s'.Count(n) != s.Count(n) then 1 else 0) + CountChanges(w, s', acts[1..], n)
  }

  /** In any run, with stale reads, failures and deletions: a stored count only
      grows, stays below the maximum, and so changes at most four times. */
  lemma {:induction false} CountOnlyGrows(w: World, s: State, acts: seq<Action>, n: string)
    requires WellFormed(w) && ValidRun(w, s, acts) && Inv(w, s, false) && n in w.nics
    ensures s.Count(n) + CountChanges(w, s, acts, n) <= After(w, s, acts).Count(n)
    ensures CountChanges(w, s, acts, n) > 0 ==> After(w, s, acts).Count(n) < MAX_COLLISIONS
    ensures CountChanges(w, s, acts, n) <= 4
    ensures CountChanges(w, s, acts, n) == 0 ==> After(w, s, acts).Count(n) == s.Count(n)
    decreases acts
  {
    if acts == [] {
    } else {
      assert NicInv(w, s, n, false);
      CountStep(w, s, acts[0], n);
      StepKeepsInv(w, s, acts[0], false);
      CountOnlyGrows(w, Apply(w, s, acts[0]), acts[1..], n);
    }
  }

  /** An outdated copy never has a larger count than the stored one: whatever
      happens after it was read. */
  lemma EarlierCountsAreSmaller(w: World, s: State, before: seq<Action>, later: seq<Action>, n: string)
    requires WellFormed(w) && Quiet(s) && n in w.nics
    requires ValidRun(w, s, before) && ValidRun(w, After(w, s, before), later)
    ensures ValidRun(w, s, before + later)
    ensures CopyOf(After(w, s, before + later), n, After(w, s, before).Count(n), OutdatedReads)
  {
    RunsCompose(w, s, before, later);
    RunKeepsInv(w, s, before, false);
    CountOnlyGrows(w, After(w, s, before), later, n);
  }

  /** Once a controller owns a prefix-derived object its count is settled for as long as that object is not deleted. */
  lemma {:induction false} OwnerKeepsItsCount(w: World, s: State, acts: seq<Action>, p: string,
                                               n: string, c: nat, k: Key, x: Nuisance)
    requires WellFormed(w) && ValidRun(w, s, acts) && ToleratedRun(w, s, acts, x) && PrefixInv(w, s, p, x)
    requires n in Users(w, p) && k in s.cluster && KeyAt(w, n, c, k) && s.cluster[k] == n
    requires Delete(k) !in acts
    ensures After(w, s, acts).Count(n) == s.Count(n) == c
    ensures k in After(w, s, acts).cluster && After(w, s, acts).cluster[k] == n
    decreases acts
  {
    if acts == [] {
    } else {
      OwnerStable(w, s, acts[0], p, n, c, k, x);
      StepKeepsPrefixInv(w, s, acts[0], p, x);
      OwnerKeepsItsCount(w, Apply(w, s, acts[0]), acts[1..], p, n, c, k, x);
    }
  }
}
