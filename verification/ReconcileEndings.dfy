/** What the ending of a reconcile tells, in any interleaving: that its objects are
    written, that its count was stored, or that it left the counts alone. */
module ReconcileEndings {
  import opened NginxManifests
  import opened CollisionProtocol
  import opened ProtocolSafety

  /** The first objects of this count exist, and those named after the prefix are `n`'s. */
  ghost predicate HasWritten(w: World, cluster: map<Key, string>, n: string, c: nat, upTo: nat)
    requires n in w.nics
  {
    forall j: nat | j < upTo && j < |ObjectsOf(w, n, c)| :: IsWritten(cluster, n, ObjectsOf(w, n, c)[j])
  }

  predicate IsWritten(cluster: map<Key, string>, n: string, o: Managed) {
    PrefixKind(o.key.kind) ==> o.key in cluster && cluster[o.key] == n
  }

  /** How far a reconcile that read the count `c` has come with writing. */
  ghost predicate WrittenAt(w: World, cluster: map<Key, string>, n: string, c: nat, pc: Pc)
    requires n in w.nics
  {
    match pc
    case Idle => true
    case Upserting(start, i) => start == c && HasWritten(w, cluster, n, c, i)
    case Closing(e) => e == Done ==> HasWritten(w, cluster, n, c, |ObjectsOf(w, n, c)|)
    case _ => pc.start == c
  }

  /** Nobody outside the operator touches prefix-derived objects. */
  predicate LeavesPrefixAlone(a: Action) {
    (a.Delete? || a.Create?) ==> !PrefixKind(a.key.kind)
  }

  /** Nobody does so, and `n` starts no further reconcile. */
  predicate OneReconcile(acts: seq<Action>, n: string) {
    forall i | 0 <= i < |acts| :: LeavesPrefixAlone(acts[i]) && !(acts[i].Read? && acts[i].n == n)
  }

  lemma OthersKeepObject(w: World, s: State, a: Action, n: string, c: nat, j: nat)
    requires WellFormed(w) && Inv(w, s, false) && Enabled(w, s, a) && LeavesPrefixAlone(a)
    requires n in w.nics && !w.nics[n].IsDefault() && Actor(a) != n && s.Pc(n).Critical()
    requires j < |ObjectsOf(w, n, c)| && IsWritten(s.cluster, n, ObjectsOf(w, n, c)[j])
    ensures IsWritten(Apply(w, s, a).cluster, n, ObjectsOf(w, n, c)[j])
  {
    var o := ObjectsOf(w, n, c)[j];
    assert NicInv(w, s, n, false);
    if PrefixKind(o.key.kind) && (a.Upsert? || a.UpsertFails?) && s.Pc(a.n).i < |ObjectsOf(w, a.n, s.Pc(a.n).start)| {
      assert NicInv(w, s, a.n, false);
      CriticalKeysDiffer(w, s, n, c, j, a.n, s.Pc(a.n).start, s.Pc(a.n).i, false);
    }
  }

  lemma OthersKeepWritten(w: World, s: State, a: Action, n: string, c: nat, upTo: nat)
    requires WellFormed(w) && Inv(w, s, false) && Enabled(w, s, a) && LeavesPrefixAlone(a)
    requires n in w.nics && !w.nics[n].IsDefault() && Actor(a) != n && s.Pc(n).Critical()
    requires HasWritten(w, s.cluster, n, c, upTo)
    ensures HasWritten(w, Apply(w, s, a).cluster, n, c, upTo)
  {
    forall j: nat | j < upTo && j < |ObjectsOf(w, n, c)|
      ensures IsWritten(Apply(w, s, a).cluster, n, ObjectsOf(w, n, c)[j])
    {
      OthersKeepObject(w, s, a, n, c, j);
    }
  }

  lemma UpsertWrites(w: World, s: State, n: string, o: Managed)
    requires WellFormed(w) && AboutToUpsert(w, s, n, o) && HasWritten(w, s.cluster, n, s.Pc(n).start, s.Pc(n).i)
    ensures HasWritten(w, UpsertObject(s.cluster, o, n), n, s.Pc(n).start, s.Pc(n).i + 1)
  {
    assert ObjectShape(w.nics[n], s.Pc(n).start, o);
  }

  lemma OwnStepWrites(w: World, s: State, a: Action, n: string, c: nat)
    requires WellFormed(w) && Enabled(w, s, a) && n in w.nics && Actor(a) == n && !a.Read?
    requires WrittenAt(w, s.cluster, n, c, s.Pc(n))
    ensures WrittenAt(w, Apply(w, s, a).cluster, n, c, Apply(w, s, a).Pc(n))
  {
    if a.Upsert? && s.Pc(n).i < |ObjectsOf(w, n, c)| {
      UpsertWrites(w, s, n, ObjectsOf(w, n, c)[s.Pc(n).i]);
    }
  }

  lemma StepKeepsWritten(w: World, s: State, a: Action, n: string, c: nat)
    requires WellFormed(w) && Inv(w, s, false) && Enabled(w, s, a) && LeavesPrefixAlone(a) && !(a.Read? && a.n == n)
    requires n in w.nics && !w.nics[n].IsDefault() && WrittenAt(w, s.cluster, n, c, s.Pc(n))
    ensures WrittenAt(w, Apply(w, s, a).cluster, n, c, Apply(w, s, a).Pc(n))
  {
    if Actor(a) == n {
      OwnStepWrites(w, s, a, n, c);
    } else {
      OtherStepKeepsPc(w, s, a, n);
      if s.Pc(n).Upserting? {
        OthersKeepWritten(w, s, a, n, c, s.Pc(n).i);
      } else if s.Pc(n) == Closing(Done) {
        OthersKeepWritten(w, s, a, n, c, |ObjectsOf(w, n, c)|);
      }
    }
  }

  lemma {:induction false} RunKeepsWritten(w: World, s: State, acts: seq<Action>, n: string, c: nat)
    requires WellFormed(w) && Inv(w, s, false) && ValidRun(w, s, acts) && OneReconcile(acts, n)
    requires n in w.nics && !w.nics[n].IsDefault() && WrittenAt(w, s.cluster, n, c, s.Pc(n))
    ensures WrittenAt(w, After(w, s, acts).cluster, n, c, After(w, s, acts).Pc(n))
    decreases acts
  {
    if acts == [] {
    } else {
      StepKeepsInv(w, s, acts[0], false);
      StepKeepsWritten(w, s, acts[0], n, c);
      RunKeepsWritten(w, Apply(w, s, acts[0]), acts[1..], n, c);
    }
  }

  /** In every run from rest, whoever else reconciles and whatever fails: when a reconcile that
      read the count `c` is done, every object of `c` named after its prefix exists and is its own. */
  lemma DoneMeansWritten(w: World, s: State, before: seq<Action>, n: string, c: nat, acts: seq<Action>, o: Managed)
    requires WellFormed(w) && Quiet(s) && n in w.nics && !w.nics[n].IsDefault()
    requires ValidRun(w, s, before) && Enabled(w, After(w, s, before), Read(n, c))
    requires ValidRun(w, Apply(w, After(w, s, before), Read(n, c)), acts) && OneReconcile(acts, n)
    requires After(w, Apply(w, After(w, s, before), Read(n, c)), acts).Pc(n) == Closing(Done)
    requires o in ObjectsOf(w, n, c) && PrefixKind(o.key.kind)
    ensures var s' := After(w, Apply(w, After(w, s, before), Read(n, c)), acts);
            o.key in s'.cluster && s'.cluster[o.key] == n
  {
    RunKeepsInv(w, s, before, false);
    StepKeepsInv(w, After(w, s, before), Read(n, c), false);
    RunKeepsWritten(w, Apply(w, After(w, s, before), Read(n, c)), acts, n, c);
  }

  /** What the ending `e`, reached from `s` by the action `a` of `n`, says about the state `s'` after it. */
  predicate Tells(w: World, s: State, a: Action, n: string, e: Ending, s': State)
    requires n in w.nics
  {
    && (e == Requeue <==> s'.Count(n) > s.Count(n))
    && (e != Requeue ==> s'.counts == s.counts)
    && (e == MaxCollisions <==> a == Check(n) && s.Pc(n).Checking? && s.Pc(n).count == 5)
    && (e == IcCollision ==> a == Check(n) && !w.nics[n].IsDefault())
    && (e == Error <==> a.CheckFails? || a == Write(n, false) || a.UpsertFails?)
    && (e == Done ==> s.Pc(n).Upserting? && s.Pc(n).i == |ObjectsOf(w, n, s.Pc(n).start)|)
    && (s.Pc(n).Upserting? || s'.cluster == s.cluster)
  }

  lemma StepTells(w: World, s: State, a: Action, n: string)
    requires n in w.nics && NicInv(w, s, n, false) && Enabled(w, s, a) && Actor(a) == n
    requires !s.Pc(n).Closing? && Apply(w, s, a).Pc(n).Closing?
    ensures Tells(w, s, a, n, Apply(w, s, a).Pc(n).ending, Apply(w, s, a))
  {
  }

  /** In every run from rest, how a reconcile ends tells what it has done: a requeue means that
      a larger count was stored and any other ending that no count was, it gives up
      exactly at count five, it fails exactly on a failed read or write, and
      before its objects are to be written it has not touched the cluster. */
  lemma EndingTells(w: World, s: State, acts: seq<Action>, a: Action, n: string)
    requires WellFormed(w) && Quiet(s) && ValidRun(w, s, acts) && Enabled(w, After(w, s, acts), a)
    requires n in w.nics && Actor(a) == n
    requires !After(w, s, acts).Pc(n).Closing? && Apply(w, After(w, s, acts), a).Pc(n).Closing?
    ensures var s1, s2 := After(w, s, acts), Apply(w, After(w, s, acts), a);
            Tells(w, s1, a, n, s2.Pc(n).ending, s2)
  {
    RunKeepsInv(w, s, acts, false);
    assert NicInv(w, After(w, s, acts), n, false);
    StepTells(w, After(w, s, acts), a, n);
  }

  /** An upsert that is answered with an error has done what it should, or nothing. */
  lemma LostAnswer(w: World, s: State, n: string, applied: bool)
    requires Enabled(w, s, UpsertFails(n, applied))
    ensures Enabled(w, s, Upsert(n))
    ensures Apply(w, s, UpsertFails(n, applied)).cluster == if applied then Apply(w, s, Upsert(n)).cluster else s.cluster
  {
  }
}
