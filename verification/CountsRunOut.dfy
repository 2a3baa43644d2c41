/** The limits of Pigeonhole: runs in which counts do run out, and exactly when there
    are such runs. */
module CountsRunOut {
  import opened NginxManifests
  import opened CollisionProtocol
  import opened ProtocolSafety
  import opened Pigeonhole
  import opened WholeReconciles

  // ---- five is the limit ---------------------------------------------------------------------

  ghost predicate Distinct(us: seq<string>) {
    forall i, j | 0 <= i < j < |us| :: us[i] != us[j]
  }

  /** The first counts taken in order, the rest free. */
  function TableOf(us: seq<string>): (t: seq<string>)
    requires |us| <= MAX_COLLISIONS
    ensures |t| == MAX_COLLISIONS
    ensures forall c | 0 <= c < MAX_COLLISIONS :: t[c] == if c < |us| then us[c] else ""
  {
    us + seq(MAX_COLLISIONS - |us|, i => "")
  }

  /** The next controller settles at the next count. */
  lemma Append(w: World, p: string, acts: seq<Action>, s: State, us: seq<string>, n: string, x: Extras)
    returns (acts': seq<Action>, s': State)
    requires Crowd(w, p) && |us| < MAX_COLLISIONS && Table(w, s, p, TableOf(us)) && Leads(w, EMPTY, acts, s, x)
    requires n in Users(w, p) && n !in us && "" !in us && s.Count(n) <= |us| && x.jumps && (SharedIc(w, p) ==> x.ic)
    ensures Leads(w, EMPTY, acts', s', x) && Table(w, s', p, TableOf(us + [n]))
    ensures s'.Count(n) == |us| && forall m | m != n :: s'.Count(m) == s.Count(m)
  {
    var more;
    assert forall d | 0 <= d < |us| :: us[d] in us;
    more, s' := Settle(w, s, p, TableOf(us), n, |us|, x);
    assert TableOf(us)[|us| := n] == TableOf(us + [n]);
    LeadsOn(w, EMPTY, acts, s, more, s', x);
    acts' := acts + more;
  }

  /** Controllers of the prefix that have not moved yet and are not among `us`. */
  ghost predicate Newcomers(w: World, s: State, p: string, us: seq<string>, vs: seq<string>) {
    "" !in us && Distinct(vs) && forall v | v in vs :: v in Users(w, p) && v !in us && s.Count(v) == 0
  }

  /** They are where they settled, everybody else is where they were. */
  ghost predicate Settled(s: State, s': State, from: nat, vs: seq<string>) {
    && (forall m | m !in vs :: s'.Count(m) == s.Count(m))
    && (forall i | 0 <= i < |vs| :: s'.Count(vs[i]) == from + i)
  }

  lemma NewcomersLeft(w: World, s: State, s': State, p: string, us: seq<string>, vs: seq<string>)
    requires vs != [] && Newcomers(w, s, p, us, vs) && vs[0] != "" && forall m | m != vs[0] :: s'.Count(m) == s.Count(m)
    ensures Newcomers(w, s', p, us + [vs[0]], vs[1..])
  {
    forall v | v in vs[1..]
      ensures v in Users(w, p) && v !in us + [vs[0]] && s'.Count(v) == 0
    {
      assert v in vs && v != vs[0];
    }
  }

  lemma SettledOn(s: State, s1: State, s2: State, from: nat, vs: seq<string>)
    requires vs != [] && Distinct(vs) && s1.Count(vs[0]) == from && forall m | m != vs[0] :: s1.Count(m) == s.Count(m)
    requires Settled(s1, s2, from + 1, vs[1..])
    ensures Settled(s, s2, from, vs)
  {
    assert vs[0] !in vs[1..];
    forall m | m !in vs
      ensures s2.Count(m) == s.Count(m)
    {
      assert m !in vs[1..] && m != vs[0];
    }
    forall i | 0 <= i < |vs|
      ensures s2.Count(vs[i]) == from + i
    {
      if i > 0 {
        assert vs[1..][i - 1] == vs[i];
      }
    }
  }

  /** Controllers that come one after the other take the next counts in order. */
  lemma {:induction false} AppendAll(w: World, p: string, acts: seq<Action>, s: State,
                                      us: seq<string>, vs: seq<string>, x: Extras)
    returns (acts': seq<Action>, s': State)
    requires Crowd(w, p) && |us| + |vs| <= MAX_COLLISIONS && Newcomers(w, s, p, us, vs)
    requires Table(w, s, p, TableOf(us)) && Leads(w, EMPTY, acts, s, x) && x.jumps && (SharedIc(w, p) ==> x.ic)
    ensures Leads(w, EMPTY, acts', s', x) && Table(w, s', p, TableOf(us + vs))
    ensures Settled(s, s', |us|, vs)
    decreases |vs|
  {
    if vs == [] {
      acts', s' := acts, s;
      assert us + vs == us;
    } else {
      assert vs[0] in vs;
      var a, s1 := Append(w, p, acts, s, us, vs[0], x);
      NewcomersLeft(w, s, s1, p, us, vs);
      acts', s' := AppendAll(w, p, a, s1, us + [vs[0]], vs[1..], x);
      assert us + [vs[0]] + vs[1..] == us + vs;
      SettledOn(s, s1, s', |us|, vs);
    }
  }

  lemma {:induction false} Enumerate(us: set<string>, k: nat) returns (q: seq<string>)
    requires k <= |us|
    ensures |q| == k && Distinct(q) && forall u | u in q :: u in us
  {
    if k == 0 {
      q := [];
    } else {
      var u :| u in us;
      var rest := Enumerate(us - {u}, k - 1);
      q := [u] + rest;
    }
  }

  /** With a sixth controller there is a run in which it gives up, although controllers
      read their stored counts and nobody deletes a prefix-derived object. Nothing
      at all is deleted if the IngressClasses differ. */
  lemma SixControllersRunOut(w: World, p: string) returns (acts: seq<Action>, n: string)
    requires Crowd(w, p) && |Users(w, p)| > 5
    ensures ValidRun(w, EMPTY, acts) && AllowedRun(w, EMPTY, acts, Extras(SharedIc(w, p), false, true))
    ensures n in Users(w, p) && After(w, EMPTY, acts).Pc(n) == Closing(MaxCollisions)
  {
    var x := Extras(SharedIc(w, p), false, true);
    var us := Enumerate(Users(w, p), 6);
    n := us[5];
    assert Table(w, EMPTY, p, TableOf([]));
    var a, s1 := AppendAll(w, p, [], EMPTY, [], us[..5], x);
    assert [] + us[..5] == us[..5] && n !in us[..5];
    assert forall d | 0 <= d < 5 :: us[..5][d] in us[..5];
    var b := GiveUp(w, s1, p, TableOf(us[..5]), n, x);
    LeadsOn(w, EMPTY, a, s1, b, Entered(w, s1, n, Closing(MaxCollisions)), x);
    acts := a + b;
  }

  lemma {:induction false} PlainIsTolerated(w: World, s: State, acts: seq<Action>, x: Extras, y: Nuisance)
    requires ValidRun(w, s, acts) && AllowedRun(w, s, acts, x) && !x.mixed
    ensures ToleratedRun(w, s, acts, y)
    decreases acts
  {
    if acts == [] {
    } else {
      PlainIsTolerated(w, Apply(w, s, acts[0]), acts[1..], x, y);
    }
  }

  ghost predicate NobodyGivesUp(w: World, s: State, p: string) {
    forall n | n in Users(w, p) :: s.Pc(n) != Closing(MaxCollisions)
  }

  ghost predicate Fits(w: World, p: string, y: Nuisance, s: State, acts: seq<Action>) {
    Fresh(w, s, p) && ValidRun(w, s, acts) && ToleratedRun(w, s, acts, y) ==> NobodyGivesUp(w, After(w, s, acts), p)
  }

  ghost predicate AlwaysFits(w: World, p: string, y: Nuisance) {
    forall s, acts :: Fits(w, p, y, s, acts)
  }

  /** With either nuisance, the controllers of a prefix always find a count if and
      only if there are at most five of them. */
  lemma AlwaysFitsIffFive(w: World, p: string, y: Nuisance)
    requires Crowd(w, p)
    ensures AlwaysFits(w, p, y) <==> |Users(w, p)| <= 5
  {
    if |Users(w, p)| <= 5 {
      forall s, acts
        ensures Fits(w, p, y, s, acts)
      {
        if Fresh(w, s, p) && ValidRun(w, s, acts) && ToleratedRun(w, s, acts, y) {
          forall n | n in Users(w, p)
            ensures After(w, s, acts).Pc(n) != Closing(MaxCollisions)
          {
            FiveControllersAlwaysFit(w, s, acts, p, n, y);
          }
        }
      }
    } else {
      var acts, n := SixControllersRunOut(w, p);
      PlainIsTolerated(w, EMPTY, acts, Extras(SharedIc(w, p), false, true), y);
      assert !Fits(w, p, y, EMPTY, acts);
    }
  }

  // ---- both nuisances at once ----------------------------------------------------------------

  const NONE: seq<string> := ["", "", "", "", ""]

  const MIXED := Extras(true, true, false)

  /** Nobody has any count, and both controllers store this one. */
  ghost predicate Level(w: World, s: State, p: string, a: string, b: string, d: nat) {
    Table(w, s, p, NONE) && s.Count(a) == d && s.Count(b) == d
  }

  /** One drives the other from count `d` to the next, and goes there in turn: the
      first half. After the deletion it comes back with an outdated copy of itself. */
  lemma ClimbFirst(w: World, s: State, p: string, a: string, b: string, d: nat) returns (acts: seq<Action>, s': State)
    requires Crowd(w, p) && a in Users(w, p) && b in Users(w, p) && a != b && d < 4 && Level(w, s, p, a, b, d)
    ensures Leads(w, s, acts, s', MIXED) && Table(w, s', p, NONE) && s'.Count(a) == d + 1 && s'.Count(b) == d
  {
    var r1, s1 := Take(w, s, p, NONE, b, d, MIXED);
    var r2, s2 := Move(w, s1, p, NONE[d := b], a, d + 1, MIXED);
    LeadsOn(w, s, r1, s1, r2, s2, MIXED);
    var r3;
    r3, s' := Wipe(w, s2, p, NONE[d := b], b, d, MIXED);
    assert NONE[d := b][d := ""] == NONE;
    LeadsOn(w, s, r1 + r2, s2, r3, s', MIXED);
    acts := r1 + r2 + r3;
  }

  lemma ClimbSecond(w: World, s: State, p: string, a: string, b: string, d: nat) returns (acts: seq<Action>, s': State)
    requires Crowd(w, p) && a in Users(w, p) && b in Users(w, p) && a != b && d < 4
    requires Table(w, s, p, NONE) && s.Count(a) == d + 1 && s.Count(b) == d
    ensures Leads(w, s, acts, s', MIXED) && Level(w, s', p, a, b, d + 1)
  {
    var r1, s1 := Take(w, s, p, NONE, a, d, MIXED);
    var r2, s2 := Move(w, s1, p, NONE[d := a], b, d + 1, MIXED);
    LeadsOn(w, s, r1, s1, r2, s2, MIXED);
    var r3;
    r3, s' := Wipe(w, s2, p, NONE[d := a], a, d, MIXED);
    assert NONE[d := a][d := ""] == NONE;
    LeadsOn(w, s, r1 + r2, s2, r3, s', MIXED);
    acts := r1 + r2 + r3;
  }

  lemma {:induction false} Climb(w: World, p: string, a: string, b: string, d: nat) returns (acts: seq<Action>, s': State)
    requires Crowd(w, p) && a in Users(w, p) && b in Users(w, p) && a != b && d <= 4
    ensures Leads(w, EMPTY, acts, s', MIXED) && Level(w, s', p, a, b, d)
  {
    if d == 0 {
      acts, s' := [], EMPTY;
    } else {
      var r1, s1 := Climb(w, p, a, b, d - 1);
      var r2, s2 := ClimbFirst(w, s1, p, a, b, d - 1);
      LeadsOn(w, EMPTY, r1, s1, r2, s2, MIXED);
      var r3;
      r3, s' := ClimbSecond(w, s2, p, a, b, d - 1);
      LeadsOn(w, EMPTY, r1 + r2, s2, r3, s', MIXED);
      acts := r1 + r2 + r3;
    }
  }

  /** So two controllers run out of counts if others delete objects and controllers
      read outdated copies of themselves, copies that were stored earlier in that run. */
  lemma TwoControllersRunOut(w: World, p: string, a: string, b: string) returns (acts: seq<Action>)
    requires Crowd(w, p) && a in Users(w, p) && b in Users(w, p) && a != b
    ensures ValidRun(w, EMPTY, acts) && AllowedRun(w, EMPTY, acts, MIXED)
    ensures After(w, EMPTY, acts).Pc(b) == Closing(MaxCollisions)
    ensures forall i: nat | i < |acts| && acts[i].Read? :: WasStored(w, EMPTY, acts, i)
  {
    var r1, s1 := Climb(w, p, a, b, 4);
    var r2, s2 := Take(w, s1, p, NONE, a, 4, MIXED);
    LeadsOn(w, EMPTY, r1, s1, r2, s2, MIXED);
    var r3 := GiveUp(w, s2, p, NONE[4 := a], b, MIXED);
    LeadsOn(w, EMPTY, r1 + r2, s2, r3, Entered(w, s2, b, Closing(MaxCollisions)), MIXED);
    acts := r1 + r2 + r3;
    forall i: nat | i < |acts| && acts[i].Read?
      ensures WasStored(w, EMPTY, acts, i)
    {
      CopiesWereStored(w, EMPTY, acts, MIXED, i);
    }
  }

  /** The copy that step `i` reads was stored at some earlier point of the run. */
  ghost predicate WasStored(w: World, s: State, acts: seq<Action>, i: nat)
    requires i < |acts| && acts[i].Read?
  {
    exists j: nat :: j <= i && ValidRun(w, s, acts[..j]) && After(w, s, acts[..j]).Count(acts[i].n) == acts[i].count
  }

  lemma {:induction false} RunUpTo(w: World, s: State, acts: seq<Action>, x: Extras, i: nat)
    requires ValidRun(w, s, acts) && AllowedRun(w, s, acts, x) && i < |acts|
    ensures ValidRun(w, s, acts[..i]) && AllowedRun(w, s, acts[..i], x)
    ensures Allowed(After(w, s, acts[..i]), acts[i], x)
    decreases acts
  {
    if i == 0 {
    } else {
      RunUpTo(w, Apply(w, s, acts[0]), acts[1..], x, i - 1);
      assert acts[..i][0] == acts[0] && acts[..i][1..] == acts[1..][..i - 1];
    }
  }

  lemma CopiesWereStored(w: World, s: State, acts: seq<Action>, x: Extras, i: nat)
    requires ValidRun(w, s, acts) && AllowedRun(w, s, acts, x) && !x.jumps
    requires i < |acts| && acts[i].Read? && s.Count(acts[i].n) == 0
    ensures WasStored(w, s, acts, i)
  {
    RunUpTo(w, s, acts, x, i);
    var j := EveryCountWasStored(w, s, acts[..i], x, acts[i].n, acts[i].count);
    assert acts[..i][..j] == acts[..j];
  }

  /** No count is ever skipped in such a run, so every count up to the stored one was stored before. */
  lemma {:induction false} EveryCountWasStored(w: World, s: State, acts: seq<Action>, x: Extras, n: string, c: nat)
    returns (j: nat)
    requires ValidRun(w, s, acts) && AllowedRun(w, s, acts, x) && !x.jumps
    requires s.Count(n) <= c <= After(w, s, acts).Count(n)
    ensures j <= |acts| && ValidRun(w, s, acts[..j]) && After(w, s, acts[..j]).Count(n) == c
    decreases acts
  {
    if s.Count(n) == c {
      j := 0;
    } else {
      var s' := Apply(w, s, acts[0]);
      CountStep(w, s, acts[0], n);
      var i := EveryCountWasStored(w, s', acts[1..], x, n, c);
      j := i + 1;
      assert acts[..j][0] == acts[0] && acts[..j][1..] == acts[1..][..i];
    }
  }

  // ---- one controller ------------------------------------------------------------------------

  /** Each step is tolerated with the one or with the other nuisance. */
  predicate ToleratedWithBoth(w: World, s: State, acts: seq<Action>)
    requires ValidRun(w, s, acts)
    decreases acts
  {
    acts == [] ||
    (&& (Tolerated(s, acts[0], OutdatedReads) || Tolerated(s, acts[0], Deletions))
     && ToleratedWithBoth(w, Apply(w, s, acts[0]), acts[1..]))
  }

  predicate AtZero(pc: Pc) {
    match pc
    case Idle => true
    case Waiting(start) => start == 0
    case Checking(start, c, _) => start == 0 && c == 0
    case Writing(_, _) => false
    case Upserting(start, _) => start == 0
    case Closing(e) => e != MaxCollisions
  }

  /** The only controller of its prefix owns whatever there is, and stays at count zero. */
  ghost predicate Alone(w: World, s: State, p: string, n: string) {
    && Users(w, p) == {n} && s.Count(n) == 0 && AtZero(s.Pc(n))
    && forall c, k | KeyAt(w, n, c, k) && k in s.cluster :: s.cluster[k] == n
  }

  lemma LookAlone(w: World, s: State, p: string, n: string)
    requires WellFormed(w) && Alone(w, s, p, n) && Enabled(w, s, Check(n))
    ensures AtZero(Apply(w, s, Check(n)).Pc(n))
  {
    assert n in Users(w, p);
    var k := LookPasses(w, s, n, s.Pc(n));
  }

  lemma PcStaysAtZero(w: World, s: State, a: Action, p: string, n: string)
    requires WellFormed(w) && Alone(w, s, p, n) && Enabled(w, s, a)
    requires Tolerated(s, a, OutdatedReads) || Tolerated(s, a, Deletions)
    ensures AtZero(Apply(w, s, a).Pc(n))
  {
    assert n in Users(w, p);
    if Actor(a) != n {
      OtherStepKeepsPc(w, s, a, n);
    } else if a.Check? {
      LookAlone(w, s, p, n);
    }
  }

  lemma KeyStaysOwn(w: World, s: State, a: Action, p: string, n: string, c: nat, k: Key)
    requires WellFormed(w) && Alone(w, s, p, n) && Enabled(w, s, a)
    requires Tolerated(s, a, OutdatedReads) || Tolerated(s, a, Deletions)
    requires n in w.nics && KeyAt(w, n, c, k) && k in Apply(w, s, a).cluster
    ensures Apply(w, s, a).cluster[k] == n
  {
    assert n in Users(w, p);
    var o := ClusterStep(w, s, a, if Tolerated(s, a, Deletions) then Deletions else OutdatedReads);
    if (a.Upsert? || a.UpsertFails?) && AboutToUpsert(w, s, a.n, o) && o.key == k {
      WriterOfKey(w, s, p, n, c, a.n, o);
    }
  }

  lemma StepKeepsAlone(w: World, s: State, a: Action, p: string, n: string)
    requires WellFormed(w) && Alone(w, s, p, n) && Enabled(w, s, a)
    requires Tolerated(s, a, OutdatedReads) || Tolerated(s, a, Deletions)
    ensures Alone(w, Apply(w, s, a), p, n)
  {
    CountStep(w, s, a, n);
    PcStaysAtZero(w, s, a, p, n);
    forall c, k | KeyAt(w, n, c, k) && k in Apply(w, s, a).cluster
      ensures Apply(w, s, a).cluster[k] == n
    {
      KeyStaysOwn(w, s, a, p, n, c, k);
    }
  }

  lemma {:induction false} RunKeepsAlone(w: World, s: State, acts: seq<Action>, p: string, n: string)
    requires WellFormed(w) && Alone(w, s, p, n) && ValidRun(w, s, acts) && ToleratedWithBoth(w, s, acts)
    ensures Alone(w, After(w, s, acts), p, n)
    decreases acts
  {
    if acts == [] {
    } else {
      StepKeepsAlone(w, s, acts[0], p, n);
      RunKeepsAlone(w, Apply(w, s, acts[0]), acts[1..], p, n);
    }
  }

  // ---- the exact condition -------------------------------------------------------------------

  lemma {:induction false} MixedIsTolerated(w: World, s: State, acts: seq<Action>, x: Extras)
    requires ValidRun(w, s, acts) && AllowedRun(w, s, acts, x)
    ensures ToleratedWithBoth(w, s, acts)
    decreases acts
  {
    if acts == [] {
    } else {
      MixedIsTolerated(w, Apply(w, s, acts[0]), acts[1..], x);
    }
  }

  ghost predicate FitsBoth(w: World, p: string, s: State, acts: seq<Action>) {
    Fresh(w, s, p) && ValidRun(w, s, acts) && ToleratedWithBoth(w, s, acts) ==> NobodyGivesUp(w, After(w, s, acts), p)
  }

  ghost predicate AlwaysFitsBoth(w: World, p: string) {
    forall s, acts :: FitsBoth(w, p, s, acts)
  }

  lemma OneControllerFits(w: World, p: string, s: State, acts: seq<Action>)
    requires WellFormed(w) && |Users(w, p)| <= 1
    ensures FitsBoth(w, p, s, acts)
  {
    if Fresh(w, s, p) && ValidRun(w, s, acts) && ToleratedWithBoth(w, s, acts) {
      forall n | n in Users(w, p)
        ensures After(w, s, acts).Pc(n) != Closing(MaxCollisions)
      {
        SubsetSmaller({n}, Users(w, p));
        assert |Users(w, p) - {n}| == 0;
        assert Users(w, p) == {n};
        RunKeepsAlone(w, s, acts, p, n);
      }
    }
  }

  /** With both nuisances at once, only a single controller of a prefix always finds a count. */
  lemma AlwaysFitsBothIffOne(w: World, p: string)
    requires Crowd(w, p)
    ensures AlwaysFitsBoth(w, p) <==> |Users(w, p)| <= 1
  {
    if |Users(w, p)| <= 1 {
      forall s, acts
        ensures FitsBoth(w, p, s, acts)
      {
        OneControllerFits(w, p, s, acts);
      }
    } else {
      var us := Enumerate(Users(w, p), 2);
      assert us[0] in us && us[1] in us;
      var acts := TwoControllersRunOut(w, p, us[0], us[1]);
      MixedIsTolerated(w, EMPTY, acts, MIXED);
      assert !FitsBoth(w, p, EMPTY, acts);
    }
  }
}
