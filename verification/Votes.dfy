/** The concurrency watchdog on values: who gets a vote in a round, which votes
    the ring still holds, and who qualifies for eviction. */
module Votes {
  const RING: nat := 20

  datatype Pod = Pod(name: string, created: int, ready: bool)

  datatype Vote = Vote(pod: string, time: int)

  /** Watchdog settings: durations in one unit of time, the threshold in percent of the mean. */
  datatype Settings = Settings(minPodAge: int, voteTTL: int, minVotes: int, threshold: real)

  /** What `Validate` demands of the two configurable ones. */
  predicate Validated(cfg: Settings) {
    cfg.threshold > 100.0 && cfg.minVotes >= 1
  }

  /** One call of `processVotes`: the listed pods with their connection counts, the
      mean, a clock reading per pod and one for the tally. */
  datatype Round = Round(pods: seq<Pod>, counts: seq<real>, avg: real, at: seq<int>, tallyAt: int)

  predicate Listed(r: Round, p: string) {
    exists i | 0 <= i < |r.pods| :: r.pods[i].name == p
  }

  /** Pods of one namespace have distinct, non-empty names; there is a count and a reading for each. */
  ghost predicate ValidRound(r: Round) {
    && |r.counts| == |r.pods| == |r.at|
    && (forall i | 0 <= i < |r.pods| :: r.pods[i].name != "")
    && (forall i, j | 0 <= i < j < |r.pods| :: r.pods[i].name != r.pods[j].name)
  }

  /** The clock does not go back: within a round, and from one round to the next. */
  ghost predicate ClockOk(r: Round, from: int) {
    && (forall i | 0 <= i < |r.at| :: from <= r.at[i] <= r.tallyAt)
    && (forall i, j | 0 <= i < j < |r.at| :: r.at[i] <= r.at[j])
    && from <= r.tallyAt
  }

  /** `rank < threshold` for `rank = count / avg * 100` in floating point: division by
      a zero mean gives NaN or an infinity, and only minus infinity is below anything. */
  predicate Below(count: real, avg: real, threshold: real) {
    if avg == 0.0 then count < 0.0 else count / avg * 100.0 < threshold
  }

  predicate Eligible(cfg: Settings, r: Round, i: nat)
    requires |r.counts| == |r.pods| == |r.at| && i < |r.pods|
  {
    !Below(r.counts[i], r.avg, cfg.threshold) && r.at[i] - r.pods[i].created >= cfg.minPodAge
  }

  /** The votes cast on the first `n` pods. */
  function CastUpTo(cfg: Settings, r: Round, n: nat): (vs: seq<Vote>)
    requires |r.counts| == |r.pods| == |r.at| && n <= |r.pods|
    ensures |vs| <= n
  {
    if n == 0 then []
    else CastUpTo(cfg, r, n - 1) + if Eligible(cfg, r, n - 1) then [Vote(r.pods[n - 1].name, r.at[n - 1])] else []
  }

  function Cast(cfg: Settings, r: Round): seq<Vote>
    requires |r.counts| == |r.pods| == |r.at|
  {
    CastUpTo(cfg, r, |r.pods|)
  }

  ghost predicate ValidRounds(rs: seq<Round>) {
    forall k | 0 <= k < |rs| :: ValidRound(rs[k])
  }

  /** Every vote ever cast, in order. */
  ghost function History(cfg: Settings, rs: seq<Round>): seq<Vote>
    requires ValidRounds(rs)
  {
    if rs == [] then [] else History(cfg, rs[..|rs| - 1]) + Cast(cfg, rs[|rs| - 1])
  }

  /** What a ring of that size holds of them. */
  function Last(vs: seq<Vote>): seq<Vote> {
    if |vs| <= RING then vs else vs[|vs| - RING..]
  }

  /** The votes for a pod that are not older than `since`. */
  function Count(vs: seq<Vote>, p: string, since: int): nat {
    if vs == [] then 0
    else Count(vs[..|vs| - 1], p, since) + (if vs[|vs| - 1].pod == p && vs[|vs| - 1].time >= since then 1 else 0)
  }

  function Since(cfg: Settings, r: Round): int {
    r.tallyAt - cfg.voteTTL
  }

  /** A listed pod with enough fresh votes in the ring. */
  predicate Qualifies(cfg: Settings, vs: seq<Vote>, r: Round, p: string) {
    Listed(r, p) && Count(Last(vs), p, Since(cfg, r)) >= cfg.minVotes
  }

  // ---- counting ------------------------------------------------------------------------------

  lemma {:induction false} CountConcat(a: seq<Vote>, b: seq<Vote>, p: string, since: int)
    ensures Count(a + b, p, since) == Count(a, p, since) + Count(b, p, since)
    decreases |b|
  {
    if b == [] {
      assert a + b == a;
    } else {
      assert (a + b)[..|a + b| - 1] == a + b[..|b| - 1];
      CountConcat(a, b[..|b| - 1], p, since);
    }
  }

  lemma {:induction false} CountOneMore(vs: seq<Vote>, v: Vote, p: string, since: int)
    ensures Count(vs + [v], p, since) == Count(vs, p, since) + if v.pod == p && v.time >= since then 1 else 0
  {
    assert (vs + [v])[..|vs|] == vs;
  }

  lemma {:induction false} CountLast(vs: seq<Vote>, p: string, since: int)
    ensures Count(Last(vs), p, since) <= Count(vs, p, since)
  {
    if |vs| > RING {
      var k := |vs| - RING;
      assert vs == vs[..k] + vs[k..];
      CountConcat(vs[..k], vs[k..], p, since);
    }
  }

  /** The fresh votes for any of the pods in `q`. */
  ghost function CountIn(vs: seq<Vote>, q: set<string>, since: int): (n: nat)
    ensures n <= |vs|
  {
    if vs == [] then 0
    else CountIn(vs[..|vs| - 1], q, since) + (if vs[|vs| - 1].pod in q && vs[|vs| - 1].time >= since then 1 else 0)
  }

  lemma {:induction false} CountInAdd(vs: seq<Vote>, q: set<string>, p: string, since: int)
    requires p !in q
    ensures CountIn(vs, q + {p}, since) == CountIn(vs, q, since) + Count(vs, p, since)
  {
    if vs == [] {
    } else {
      CountInAdd(vs[..|vs| - 1], q, p, since);
    }
  }

  lemma Times(n: nat, m: nat)
    ensures (n + 1) * m == n * m + m >= m
  {
  }

  lemma {:induction false} CountInAtLeast(vs: seq<Vote>, q: set<string>, m: nat, since: int)
    requires forall p | p in q :: Count(vs, p, since) >= m
    ensures CountIn(vs, q, since) >= |q| * m
    decreases |q|
  {
    if q == {} {
    } else {
      var p :| p in q;
      CountInAtLeast(vs, q - {p}, m, since);
      CountInAdd(vs, q - {p}, p, since);
      assert q == q - {p} + {p};
      Times(|q - {p}|, m);
    }
  }

  /** Twenty slots bound what one round can find: at most 20 / minVotes pods
      qualify, and a requirement above twenty is never met. */
  lemma {:induction false} QualifiersBounded(cfg: Settings, vs: seq<Vote>, r: Round, q: set<string>)
    requires Validated(cfg)
    requires forall p | p in q :: Qualifies(cfg, vs, r, p)
    ensures |q| * cfg.minVotes <= 20
    ensures cfg.minVotes > 20 ==> q == {}
  {
    CountInAtLeast(Last(vs), q, cfg.minVotes, Since(cfg, r));
    if q != {} {
      Times(|q| - 1, cfg.minVotes);
    }
  }

  // ---- eviction safety -----------------------------------------------------------------------

  /** In round `r` the pod was old enough, at or above the threshold, and got its vote no earlier than `since`. */
  ghost predicate VotedIn(cfg: Settings, r: Round, p: string, since: int)
    requires ValidRound(r)
  {
    exists i | 0 <= i < |r.pods| :: r.pods[i].name == p && Eligible(cfg, r, i) && r.at[i] >= since
  }

  ghost function VotedRounds(cfg: Settings, rs: seq<Round>, p: string, since: int): set<nat>
    requires ValidRounds(rs)
  {
    set k: nat | k < |rs| && VotedIn(cfg, rs[k], p, since)
  }

  /** A round gives a pod at most one vote, and only if it is eligible. */
  lemma {:induction false} OneVotePerRound(cfg: Settings, r: Round, n: nat, p: string, since: int)
    requires ValidRound(r) && n <= |r.pods|
    ensures Count(CastUpTo(cfg, r, n), p, since) <= 1
    ensures Count(CastUpTo(cfg, r, n), p, since) == 1 <==>
            exists i | 0 <= i < n :: r.pods[i].name == p && Eligible(cfg, r, i) && r.at[i] >= since
  {
    if n == 0 {
    } else {
      OneVotePerRound(cfg, r, n - 1, p, since);
      var before := CastUpTo(cfg, r, n - 1);
      if Eligible(cfg, r, n - 1) {
        var v := Vote(r.pods[n - 1].name, r.at[n - 1]);
        assert CastUpTo(cfg, r, n) == before + [v];
        CountOneMore(before, v, p, since);
      } else {
        assert CastUpTo(cfg, r, n) == before;
      }
    }
  }

  /** Fresh votes for a pod, one per round that voted on it. */
  lemma {:induction false} CountIsVotedRounds(cfg: Settings, rs: seq<Round>, p: string, since: int)
    requires ValidRounds(rs)
    ensures Count(History(cfg, rs), p, since) == |VotedRounds(cfg, rs, p, since)|
    decreases |rs|
  {
    if rs != [] {
      var n := |rs| - 1;
      var init, r := rs[..n], rs[n];
      CountIsVotedRounds(cfg, init, p, since);
      CountConcat(History(cfg, init), Cast(cfg, r), p, since);
      OneVotePerRound(cfg, r, |r.pods|, p, since);
      VotedRoundsSplit(cfg, rs, p, since);
    } else {
      assert VotedRounds(cfg, rs, p, since) == {};
    }
  }

  lemma {:induction false} VotedRoundsSplit(cfg: Settings, rs: seq<Round>, p: string, since: int)
    requires ValidRounds(rs) && rs != []
    ensures var n := |rs| - 1;
            && n !in VotedRounds(cfg, rs[..n], p, since)
            && VotedRounds(cfg, rs, p, since)
               == VotedRounds(cfg, rs[..n], p, since) + if VotedIn(cfg, rs[n], p, since) then {n} else {}
  {
    var n := |rs| - 1;
    assert forall k: nat | k < n :: rs[..n][k] == rs[k];
  }

  lemma {:induction false} Enough(cfg: Settings, vs: seq<Vote>, r: Round, p: string, n: nat)
    requires Qualifies(cfg, vs, r, p) && Count(vs, p, r.tallyAt - cfg.voteTTL) == n
    ensures Listed(r, p) && n >= cfg.minVotes
  {
    CountLast(vs, p, Since(cfg, r));
  }

  /** Whole-run safety: whatever rounds came before, a pod that qualifies was voted on
      in at least `minVotes` different rounds, each within the last `voteTTL`,
      each time old enough and at or above the threshold. */
  lemma {:induction false} EvictionSafety(cfg: Settings, rs: seq<Round>, p: string)
    requires ValidRounds(rs) && rs != []
    requires Qualifies(cfg, History(cfg, rs), rs[|rs| - 1], p)
    ensures Listed(rs[|rs| - 1], p)
    ensures |VotedRounds(cfg, rs, p, rs[|rs| - 1].tallyAt - cfg.voteTTL)| >= cfg.minVotes
  {
    CountIsVotedRounds(cfg, rs, p, rs[|rs| - 1].tallyAt - cfg.voteTTL);
    Enough(cfg, History(cfg, rs), rs[|rs| - 1], p, |VotedRounds(cfg, rs, p, rs[|rs| - 1].tallyAt - cfg.voteTTL)|);
  }

  lemma {:induction false} EnoughIff(cfg: Settings, vs: seq<Vote>, r: Round, p: string, n: nat)
    requires |vs| <= 20 && Count(vs, p, r.tallyAt - cfg.voteTTL) == n
    ensures Qualifies(cfg, vs, r, p) <==> Listed(r, p) && n >= cfg.minVotes
  {
  }

  /** As long as the ring has not overflown, that is also enough. */
  lemma {:induction false} QualifiesIff(cfg: Settings, rs: seq<Round>, p: string)
    requires ValidRounds(rs) && rs != [] && |History(cfg, rs)| <= 20
    ensures Qualifies(cfg, History(cfg, rs), rs[|rs| - 1], p) <==>
            && Listed(rs[|rs| - 1], p)
            && |VotedRounds(cfg, rs, p, rs[|rs| - 1].tallyAt - cfg.voteTTL)| >= cfg.minVotes
  {
    CountIsVotedRounds(cfg, rs, p, rs[|rs| - 1].tallyAt - cfg.voteTTL);
    EnoughIff(cfg, History(cfg, rs), rs[|rs| - 1], p, |VotedRounds(cfg, rs, p, rs[|rs| - 1].tallyAt - cfg.voteTTL)|);
  }

  // ---- times ---------------------------------------------------------------------------------

  ghost predicate Sorted(vs: seq<Vote>) {
    forall i, j | 0 <= i < j < |vs| :: vs[i].time <= vs[j].time
  }

  ghost predicate ClockRuns(rs: seq<Round>, from: int)
    decreases |rs|
  {
    if rs == [] then true
    else
      var init := rs[..|rs| - 1];
      ClockRuns(init, from) && ClockOk(rs[|rs| - 1], if init == [] then from else init[|init| - 1].tallyAt)
  }

  lemma {:induction false} CastSorted(cfg: Settings, r: Round, n: nat, from: int)
    requires ValidRound(r) && ClockOk(r, from) && n <= |r.pods|
    ensures Sorted(CastUpTo(cfg, r, n))
    ensures forall v | v in CastUpTo(cfg, r, n) :: from <= v.time <= r.tallyAt && (n > 0 ==> v.time <= r.at[n - 1])
  {
    if n == 0 {
    } else {
      CastSorted(cfg, r, n - 1, from);
    }
  }

  lemma {:induction false} SortedConcat(a: seq<Vote>, b: seq<Vote>, mid: int)
    requires Sorted(a) && Sorted(b)
    requires (forall v | v in a :: v.time <= mid) && (forall v | v in b :: mid <= v.time)
    ensures Sorted(a + b) && Sorted(Last(a + b))
  {
    forall i, j | 0 <= i < j < |a + b|
      ensures (a + b)[i].time <= (a + b)[j].time
    {
      assert i < |a| ==> a[i] in a;
      assert j >= |a| ==> b[j - |a|] in b;
    }
  }

  /** The ring keeps votes in the order of their times. */
  lemma {:induction false} HistorySorted(cfg: Settings, rs: seq<Round>, from: int)
    requires ValidRounds(rs) && ClockRuns(rs, from)
    ensures Sorted(History(cfg, rs)) && Sorted(Last(History(cfg, rs)))
    ensures rs != [] ==> forall v | v in History(cfg, rs) :: v.time <= rs[|rs| - 1].tallyAt
    decreases |rs|
  {
    if rs == [] {
    } else {
      var init, r := rs[..|rs| - 1], rs[|rs| - 1];
      var start := if init == [] then from else init[|init| - 1].tallyAt;
      HistorySorted(cfg, init, from);
      CastSorted(cfg, r, |r.pods|, start);
      SortedConcat(History(cfg, init), Cast(cfg, r), start);
    }
  }
}
