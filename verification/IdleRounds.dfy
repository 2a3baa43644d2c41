/** Rounds without a single connection, where the mean is zero and the comparison with
    it decides nothing: exactly when a round spares a ready pod, and what idle
    rounds lead to. */
module IdleRounds {
  import opened Votes
  import opened WatchdogArithmetic

  predicate TooYoung(cfg: Settings, r: Round, i: nat)
    requires |r.pods| == |r.at| && i < |r.pods|
  {
    r.at[i] - r.pods[i].created < cfg.minPodAge
  }

  ghost predicate SparesReadyPod(cfg: Settings, r: Round)
    requires ValidRound(r)
  {
    exists i: nat | i < |r.pods| :: r.pods[i].ready && !Eligible(cfg, r, i)
  }

  ghost predicate HasYoungReadyPod(cfg: Settings, r: Round)
    requires ValidRound(r)
  {
    exists i: nat | i < |r.pods| :: r.pods[i].ready && TooYoung(cfg, r, i)
  }

  /** Some ready pod is not voted on, exactly if there are connections or a ready pod is too young. */
  lemma SparesReadyPodIff(cfg: Settings, r: Round)
    requires Validated(cfg) && Measured(r)
    ensures SparesReadyPod(cfg, r) <==> Sum(r.counts) > 0.0 || HasYoungReadyPod(cfg, r)
  {
    SumNonNegative(r.counts);
    if Sum(r.counts) > 0.0 {
      var i := SomeReadyPodIsSpared(cfg, r);
    } else {
      forall i: nat | i < |r.pods|
        ensures Eligible(cfg, r, i) <==> !TooYoung(cfg, r, i)
      {
        IdleRoundVotesOnAllOldPods(cfg, r, i);
      }
    }
  }

  // ---- a series of idle rounds ---------------------------------------------------------------

  lemma {:induction false} HistoryConcat(cfg: Settings, a: seq<Round>, b: seq<Round>)
    requires ValidRounds(a) && ValidRounds(b)
    ensures ValidRounds(a + b) && History(cfg, a + b) == History(cfg, a) + History(cfg, b)
    decreases |b|
  {
    if b == [] {
      assert a + b == a;
    } else {
      assert (a + b)[..|a + b| - 1] == a + b[..|b| - 1];
      HistoryConcat(cfg, a, b[..|b| - 1]);
    }
  }

  /** A pod that is voted on in every round has as many fresh votes as there are rounds. */
  lemma {:induction false} OneVoteEveryRound(cfg: Settings, rs: seq<Round>, p: string, since: int)
    requires ValidRounds(rs) && forall k | 0 <= k < |rs| :: VotedIn(cfg, rs[k], p, since)
    ensures Count(History(cfg, rs), p, since) == |rs|
    decreases |rs|
  {
    if rs == [] {
    } else {
      var init, r := rs[..|rs| - 1], rs[|rs| - 1];
      OneVoteEveryRound(cfg, init, p, since);
      CountConcat(History(cfg, init), Cast(cfg, r), p, since);
      OneVotePerRound(cfg, r, |r.pods|, p, since);
      assert VotedIn(cfg, r, p, since);
    }
  }

  lemma LatestVotesCount(a: seq<Vote>, b: seq<Vote>, p: string, since: int)
    requires |b| <= RING
    ensures Count(Last(a + b), p, since) >= Count(b, p, since)
  {
    var last := Last(a + b);
    var k := |last| - |b|;
    assert last == last[..k] + b;
    CountConcat(last[..k], b, p, since);
  }

  /** In an idle round this pod is listed, old enough, and looked at no earlier than `since`. */
  ghost predicate IdleWith(cfg: Settings, r: Round, p: string, since: int) {
    && Measured(r) && Sum(r.counts) == 0.0
    && exists i: nat | i < |r.pods| :: r.pods[i].name == p && !TooYoung(cfg, r, i) && r.at[i] >= since
  }

  lemma IdleVotes(cfg: Settings, r: Round, p: string, since: int)
    requires IdleWith(cfg, r, p, since)
    ensures VotedIn(cfg, r, p, since)
  {
    var i: nat :| i < |r.pods| && r.pods[i].name == p && !TooYoung(cfg, r, i) && r.at[i] >= since;
    IdleRoundVotesOnAllOldPods(cfg, r, i);
  }

  /** Whatever came before: after as many idle rounds as votes are required, all within
      the vote lifetime and with at most twenty votes between them, every pod that was
      old enough throughout qualifies for eviction, without ever having had a connection. */
  lemma IdleRoundsQualifyAll(cfg: Settings, before: seq<Round>, idle: seq<Round>, p: string)
    requires ValidRounds(before) && ValidRounds(idle) && idle != [] && |idle| >= cfg.minVotes
    requires forall k | 0 <= k < |idle| :: IdleWith(cfg, idle[k], p, Since(cfg, idle[|idle| - 1]))
    requires |History(cfg, idle)| <= RING
    ensures ValidRounds(before + idle)
    ensures Qualifies(cfg, History(cfg, before + idle), idle[|idle| - 1], p)
  {
    var since := Since(cfg, idle[|idle| - 1]);
    HistoryConcat(cfg, before, idle);
    forall k | 0 <= k < |idle|
      ensures VotedIn(cfg, idle[k], p, since)
    {
      IdleVotes(cfg, idle[k], p, since);
    }
    OneVoteEveryRound(cfg, idle, p, since);
    LatestVotesCount(History(cfg, before), History(cfg, idle), p, since);
    assert IdleWith(cfg, idle[|idle| - 1], p, since);
  }
}
