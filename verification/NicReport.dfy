/** What a reconcile of the protocol reports when it closes: the two collision
    errors leave no Deployment and no IngressClass behind to report on. */
module NicReport {
  import opened CollisionProtocol
  import opened ProtocolSafety
  import N = NicStatus

  /** The reconcile of `n` gets to building its objects somewhere in the run. */
  predicate Builds(w: World, s: State, acts: seq<Action>, n: string)
    requires ValidRun(w, s, acts)
    decreases acts
  {
    s.Pc(n).Upserting? || (acts != [] && Builds(w, Apply(w, s, acts[0]), acts[1..], n))
  }

  /** A scan that failed, or an upsert, is no collision; a new count is not reported at all. */
  function ErrorOf(e: Ending): N.CollisionError {
    match e
    case MaxCollisions => N.MaxCollisions
    case IcCollision => N.IcCollision
    case Error => N.OtherError
    case Done => N.NoError
    case Requeue => N.NoError
  }

  /** The deferred status update: the objects are those of this reconcile, nil before they are built. */
  function Report(w: World, s: State, acts: seq<Action>, n: string, d: N.Deployment, ic: N.IngressClass,
                  generation: int, now: int): N.Update
    requires ValidRun(w, s, acts) && After(w, s, acts).Pc(n).Closing?
  {
    var built := Builds(w, s, acts, n);
    N.Update(if built then d else N.NoDeployment, if built then ic else N.NoIngressClass,
             ErrorOf(After(w, s, acts).Pc(n).ending), generation, now)
  }

  predicate Collided(pc: Pc) {
    pc == Closing(MaxCollisions) || pc == Closing(IcCollision)
  }

  /** Past the scan, a reconcile can no longer end in a collision. */
  predicate PastScan(pc: Pc) {
    pc.Writing? || pc.Upserting? || (pc.Closing? && !Collided(pc))
  }

  lemma StepPastScan(w: World, s: State, a: Action, n: string)
    requires n in w.nics && n != "" && Enabled(w, s, a) && a != Unlock(n) && PastScan(s.Pc(n))
    ensures PastScan(Apply(w, s, a).Pc(n))
  {
    if Actor(a) != n {
      OtherStepKeepsPc(w, s, a, n);
    }
  }

  lemma {:induction false} RunPastScan(w: World, s: State, acts: seq<Action>, n: string)
    requires n in w.nics && n != "" && ValidRun(w, s, acts) && Unlock(n) !in acts && PastScan(s.Pc(n))
    ensures PastScan(After(w, s, acts).Pc(n))
    decreases acts
  {
    if acts == [] {
    } else {
      StepPastScan(w, s, acts[0], n);
      RunPastScan(w, Apply(w, s, acts[0]), acts[1..], n);
    }
  }

  lemma StepOfScan(w: World, s: State, a: Action, n: string)
    requires n in w.nics && n != "" && Enabled(w, s, a) && a != Unlock(n)
    requires s.Pc(n).Checking? || Collided(s.Pc(n))
    ensures var pc := Apply(w, s, a).Pc(n); pc.Checking? || Collided(pc) || PastScan(pc)
  {
    if Actor(a) != n {
      OtherStepKeepsPc(w, s, a, n);
    }
  }

  /** A reconcile that ends in a collision never gets to building its objects. */
  lemma {:induction false} CollisionBuildsNothing(w: World, s: State, acts: seq<Action>, n: string)
    requires n in w.nics && n != "" && ValidRun(w, s, acts) && Unlock(n) !in acts
    requires (s.Pc(n).Checking? || Collided(s.Pc(n))) && Collided(After(w, s, acts).Pc(n))
    ensures !Builds(w, s, acts, n)
    decreases acts
  {
    if acts == [] {
    } else {
      var s' := Apply(w, s, acts[0]);
      StepOfScan(w, s, acts[0], n);
      if PastScan(s'.Pc(n)) {
        RunPastScan(w, s', acts[1..], n);
        assert false;
      }
      CollisionBuildsNothing(w, s', acts[1..], n);
    }
  }

  /** From the interleaved protocol to the status: when a scan of any run ends in a
      collision, whatever was reported before and whatever others did meanwhile,
      Available is False and Progressing is False with that collision's reason. */
  lemma CollisionRunIsReported(w: World, s: State, acts: seq<Action>, n: string, m: N.Conditions, us: seq<N.Update>,
                               d: N.Deployment, ic: N.IngressClass, generation: int, now: int)
    requires WellFormed(w) && n in w.nics && ValidRun(w, s, acts) && Unlock(n) !in acts
    requires s.Pc(n).Checking? && Collided(After(w, s, acts).Pc(n))
    ensures var m' := N.AfterHistory(m, us + [Report(w, s, acts, n, d, ic, generation, now)]);
            && N.Is(m', N.Available, N.False) && N.Is(m', N.Progressing, N.False)
            && m'[N.Progressing].reason ==
               if After(w, s, acts).Pc(n).ending.IcCollision? then N.IngressClassCollision else N.TooManyCollisions
  {
    CollisionBuildsNothing(w, s, acts, n);
    N.CollisionIsReported(m, us, Report(w, s, acts, n, d, ic, generation, now));
  }

  /** A scan that fails on a read error is no collision: the controller is reported as
      unknown rather than as colliding, and its count stays as it is. */
  lemma FailedScanIsReported(w: World, s: State, acts: seq<Action>, n: string, m: N.Conditions,
                             d: N.Deployment, ic: N.IngressClass, generation: int, now: int)
    requires WellFormed(w) && n in w.nics && ValidRun(w, s, acts) && Unlock(n) !in acts
    requires s.Pc(n).Checking? && After(w, s, acts).Pc(n).Checking? && Enabled(w, After(w, s, acts), CheckFails(n))
    ensures ValidRun(w, s, acts + [CheckFails(n)]) && After(w, s, acts + [CheckFails(n)]).Pc(n).Closing?
    ensures After(w, s, acts + [CheckFails(n)]).Count(n) == After(w, s, acts).Count(n)
    ensures var m' := N.UpdateStatus(m, Report(w, s, acts + [CheckFails(n)], n, d, ic, generation, now));
            && N.Is(m', N.ControllerAvailable, N.Unknown) && N.Is(m', N.Available, N.False)
            && N.Is(m', N.Progressing, N.Unknown) && m'[N.Progressing].reason == N.ControllerDeploymentUnknown
  {
    RunExtends(w, s, acts, CheckFails(n));
    ScanBuildsNothing(w, s, acts, n);
    BuildsMore(w, s, acts, CheckFails(n), n);
    N.NoDeploymentReported(m, Report(w, s, acts + [CheckFails(n)], n, d, ic, generation, now));
  }

  lemma {:induction false} ScanBuildsNothing(w: World, s: State, acts: seq<Action>, n: string)
    requires n in w.nics && n != "" && ValidRun(w, s, acts) && Unlock(n) !in acts
    requires s.Pc(n).Checking? && After(w, s, acts).Pc(n).Checking?
    ensures !Builds(w, s, acts, n)
    decreases acts
  {
    if acts == [] {
    } else {
      var s' := Apply(w, s, acts[0]);
      StepOfScan(w, s, acts[0], n);
      if PastScan(s'.Pc(n)) {
        RunPastScan(w, s', acts[1..], n);
        assert false;
      }
      if Collided(s'.Pc(n)) {
        StaysCollided(w, s', acts[1..], n);
        assert false;
      }
      ScanBuildsNothing(w, s', acts[1..], n);
    }
  }

  lemma {:induction false} StaysCollided(w: World, s: State, acts: seq<Action>, n: string)
    requires n in w.nics && n != "" && ValidRun(w, s, acts) && Unlock(n) !in acts && Collided(s.Pc(n))
    ensures Collided(After(w, s, acts).Pc(n))
    decreases acts
  {
    if acts == [] {
    } else {
      if Actor(acts[0]) != n {
        OtherStepKeepsPc(w, s, acts[0], n);
      }
      StaysCollided(w, Apply(w, s, acts[0]), acts[1..], n);
    }
  }

  lemma {:induction false} BuildsMore(w: World, s: State, acts: seq<Action>, a: Action, n: string)
    requires ValidRun(w, s, acts) && ValidRun(w, s, acts + [a])
    ensures Builds(w, s, acts + [a], n) <==> Builds(w, s, acts, n) || After(w, s, acts + [a]).Pc(n).Upserting?
    decreases acts
  {
    if acts == [] {
      assert (acts + [a])[1..] == [] && (acts + [a])[0] == a;
    } else {
      assert (acts + [a])[0] == acts[0] && (acts + [a])[1..] == acts[1..] + [a];
      BuildsMore(w, Apply(w, s, acts[0]), acts[1..], a, n);
    }
  }
}
