/** The mutex is keyed by the prefix, not by the IngressClass. Two controllers
    with different locks and one IngressClass name can therefore both find it
    absent and both write it. This module constructs that run for every such
    pair, which makes the condition of ProtocolSafety exact. The run needs two
    reconciles at once: with the default of one worker, as the controller is
    set up, runs are sequential and SequentialRunsExclusive applies. */
module IngressClassRace {
  import opened NginxManifests
  import opened CollisionProtocol
  import opened ProtocolSafety
  import C = CollisionCount

  /** In a run from rest, a non-default controller about to write a labelled object never finds it owned by another. */
  ghost predicate SafeRun(w: World, s: State, acts: seq<Action>) {
    Quiet(s) && ValidRun(w, s, acts) ==>
      forall n, o | AboutToUpsert(w, After(w, s, acts), n, o) && !w.nics[n].IsDefault() && o.Labelled() ::
        NotOthers(After(w, s, acts).cluster, o.key, n)
  }

  ghost predicate AllRunsSafe(w: World) {
    forall s, acts :: SafeRun(w, s, acts)
  }

  lemma {:induction false} NothingInTheWay(objs: seq<Managed>, nic: Nic, i: nat)
    requires i <= |objs|
    ensures C.FirstIssue(ReaderOf(map[]), nic, objs, i) == C.NoCollision
    decreases |objs| - i
  {
    if i == |objs| {
    } else {
      NothingInTheWay(objs, nic, i + 1);
    }
  }

  lemma ScanFromStart(w: World, s: State, n: string) returns (scan: seq<Action>)
    requires WellFormed(w) && n in w.nics && s.cluster == map[] && s.Pc(n) == Checking(0, 0, 0)
    ensures ValidRun(w, s, scan) && After(w, s, scan) == s.Goto(n, Upserting(0, 0))
  {
    scan := ScanRefinesGetCollisionCount(w, s, n, 0);
    NothingInTheWay(w.objects(w.nics[n], 0), w.nics[n], 0);
    assert C.CountFrom(w.objects, ReaderOf(s.cluster), w.nics[n], 0) == C.Count(0);
  }

  /** Starting a reconcile on an empty cluster leads to the point where it writes. */
  lemma ReachUpserting(w: World, s: State, n: string) returns (acts: seq<Action>)
    requires WellFormed(w) && n in w.nics
    requires s.cluster == map[] && s.Pc(n).Idle? && w.bucket(w.nics[n].prefix) !in s.locks
    ensures ValidRun(w, s, acts)
    ensures After(w, s, acts) ==
            s.(locks := s.locks[w.bucket(w.nics[n].prefix) := n]).Goto(n, Upserting(0, 0))
  {
    var s1 := Apply(w, s, Read(n, 0));
    var s2 := Apply(w, s1, Lock(n));
    RunExtends(w, s, [], Read(n, 0));
    RunExtends(w, s, [] + [Read(n, 0)], Lock(n));
    var start := [] + [Read(n, 0)] + [Lock(n)];
    var scan := ScanFromStart(w, s2, n);
    RunsCompose(w, s, start, scan);
    acts := start + scan;
    assert s2.Goto(n, Upserting(0, 0)) == s.(locks := s.locks[w.bucket(w.nics[n].prefix) := n]).Goto(n, Upserting(0, 0));
  }

  /** From there, up to but not including its IngressClass. */
  lemma ReachIc(w: World, s: State, n: string) returns (acts: seq<Action>, o: Managed)
    requires WellFormed(w) && n in w.nics && s.Pc(n) == Upserting(0, 0)
    ensures ValidRun(w, s, acts)
    ensures AboutToUpsert(w, After(w, s, acts), n, o) && o.key == IcKey(w.nics[n]) && o.Labelled()
    ensures forall m | m != n :: After(w, s, acts).Pc(m) == s.Pc(m)
    ensures forall k: Key | k.kind == IngressClass && k in s.cluster ::
              k in After(w, s, acts).cluster && After(w, s, acts).cluster[k] == s.cluster[k]
  {
    var objs := ObjectsOf(w, n, 0);
    assert IcFirst(w.nics[n], objs);
    if objs[0].Labelled() {
      acts, o := [], objs[0];
    } else {
      assert ObjectShape(w.nics[n], 0, objs[0]);
      RunExtends(w, s, [], Upsert(n));
      acts, o := [] + [Upsert(n)], objs[1];
    }
  }

  /** Both are past their checks, each about to write. */
  lemma ReachBothUpserting(w: World, n: string, m: string) returns (acts: seq<Action>)
    requires WellFormed(w) && n in w.nics && m in w.nics && n != m
    requires w.bucket(w.nics[n].prefix) != w.bucket(w.nics[m].prefix)
    ensures ValidRun(w, EMPTY, acts)
    ensures After(w, EMPTY, acts).Pc(n) == After(w, EMPTY, acts).Pc(m) == Upserting(0, 0)
  {
    var a1 := ReachUpserting(w, EMPTY, m);
    var s1 := After(w, EMPTY, a1);
    var a2 := ReachUpserting(w, s1, n);
    RunsCompose(w, EMPTY, a1, a2);
    acts := a1 + a2;
  }

  /** Two controllers, one IngressClass name, two locks: a run in which the second
      is about to write the IngressClass the first already owns. */
  lemma RaceExists(w: World, n: string, m: string) returns (acts: seq<Action>, o: Managed)
    requires WellFormed(w) && n in w.nics && m in w.nics && n != m
    requires w.nics[n].icName == w.nics[m].icName
    requires w.bucket(w.nics[n].prefix) != w.bucket(w.nics[m].prefix)
    ensures ValidRun(w, EMPTY, acts)
    ensures AboutToUpsert(w, After(w, EMPTY, acts), n, o) && o.Labelled() && o.key.kind == IngressClass
    ensures o.key in After(w, EMPTY, acts).cluster && After(w, EMPTY, acts).cluster[o.key] == m
  {
    var a1 := ReachBothUpserting(w, n, m);
    var s1 := After(w, EMPTY, a1);
    var a2, ic := ReachIc(w, s1, m);
    var s2 := After(w, s1, a2);
    RunsCompose(w, EMPTY, a1, a2);
    var s3 := WriteIc(w, s2, m, ic);
    OtherStepKeepsPc(w, s2, Upsert(m), n);
    RunExtends(w, EMPTY, a1 + a2, Upsert(m));
    var a3 := a1 + a2 + [Upsert(m)];
    var a4;
    a4, o := ReachIc(w, s3, n);
    RunsCompose(w, EMPTY, a3, a4);
    acts := a3 + a4;
  }

  lemma WriteIc(w: World, s: State, m: string, ic: Managed) returns (s': State)
    requires AboutToUpsert(w, s, m, ic) && ic.Labelled()
    ensures Enabled(w, s, Upsert(m)) && s' == Apply(w, s, Upsert(m))
    ensures ic.key in s'.cluster && s'.cluster[ic.key] == m
  {
    s' := Apply(w, s, Upsert(m));
  }

  lemma SerialIcMakesRunsSafe(w: World, s: State, acts: seq<Action>)
    requires WellFormed(w) && SerialIc(w)
    ensures SafeRun(w, s, acts)
  {
    if Quiet(s) && ValidRun(w, s, acts) {
      var s' := After(w, s, acts);
      RunKeepsInv(w, s, acts, true);
      forall n, o | AboutToUpsert(w, s', n, o) && !w.nics[n].IsDefault() && o.Labelled()
        ensures NotOthers(s'.cluster, o.key, n)
      {
        assert ObjectShape(w.nics[n], s'.Pc(n).start, o);
        UpsertIsClear(w, s', n, o, true);
      }
    }
  }

  /** Exclusive ownership of every labelled object, over all interleavings, holds
      exactly when controllers that name the same IngressClass share a lock. */
  lemma ExclusiveIffSerialIc(w: World)
    requires WellFormed(w)
    ensures AllRunsSafe(w) <==> SerialIc(w)
  {
    if SerialIc(w) {
      forall s, acts
        ensures SafeRun(w, s, acts)
      {
        SerialIcMakesRunsSafe(w, s, acts);
      }
    } else {
      var n, m :| n in w.nics && m in w.nics && n != m && !w.nics[n].IsDefault()
                  && w.nics[n].icName == w.nics[m].icName
                  && w.bucket(w.nics[n].prefix) != w.bucket(w.nics[m].prefix);
      var acts, o := RaceExists(w, n, m);
      assert !NotOthers(After(w, EMPTY, acts).cluster, o.key, n);
      assert !SafeRun(w, EMPTY, acts);
    }
  }
}
