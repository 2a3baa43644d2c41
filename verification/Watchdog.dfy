/** The concurrency watchdog itself: a ring of twenty slots overwritten in place,
    shared by all targets, and the tick that fills rounds from what it lists and
    scrapes. Its behaviour is proved against the values of Votes. */
module Watchdog {
  import opened Wrappers
  import opened Votes
  import opened WatchdogArithmetic

  // ---- the ring ------------------------------------------------------------------------------

  /** The ring after `votes` were recorded: vote number `t` sits in slot `t` modulo the size. */
  ghost predicate RingHolds(slots: seq<Option<Vote>>, cur: nat, votes: seq<Vote>) {
    && |slots| == RING && cur == |votes| % RING
    && (forall t: nat | 0 < t <= |votes| && |votes| < t + RING :: slots[t % RING] == Some(votes[t - 1]))
    && (|votes| < RING ==> forall s | 0 <= s < RING && (s == 0 || s > |votes|) :: slots[s] == None)
  }

  /** Moving on one slot and overwriting it appends to the votes. */
  lemma {:induction false} RecordExtends(slots: seq<Option<Vote>>, cur: nat, votes: seq<Vote>, v: Vote)
    requires RingHolds(slots, cur, votes)
    ensures RingHolds(slots[(cur + 1) % RING := Some(v)], (cur + 1) % RING, votes + [v])
  {
    var n := |votes|;
    NextSlot(n);
    var slots' := slots[(cur + 1) % RING := Some(v)];
    forall t: nat | 0 < t <= n + 1 && n + 1 < t + RING
      ensures slots'[t % RING] == Some((votes + [v])[t - 1])
    {
      SlotsDiffer(t, n + 1);
    }
  }

  lemma NextSlot(n: nat)
    ensures (n % RING + 1) % RING == (n + 1) % RING
    ensures n + 1 < RING ==> (n + 1) % RING == n + 1
  {
  }

  lemma SlotsDiffer(t: nat, m: nat)
    requires t <= m < t + RING
    ensures t % RING == m % RING <==> t == m
  {
  }

  /** The votes `Do` visits in its first `k` steps, starting at the current slot. */
  function Walk(slots: seq<Option<Vote>>, cur: nat, k: nat): seq<Vote>
    requires |slots| == RING
  {
    if k == 0 then []
    else
      var s := slots[(cur + k - 1) % RING];
      Walk(slots, cur, k - 1) + if s.Some? then [s.value] else []
  }

  /** The vote in the slot `k` steps on: the newest one, or the one recorded twenty minus `k` votes ago. */
  function Met(votes: seq<Vote>, k: nat): seq<Vote>
    requires votes != [] && k < RING
  {
    if k == 0 then [votes[|votes| - 1]]
    else if |votes| + k > RING then [votes[|votes| + k - RING - 1]]
    else []
  }

  lemma Ahead(n: nat, k: nat)
    requires k < RING
    ensures (n % RING + k) % RING == (n + k) % RING
    ensures n + k >= RING ==> (n + k) % RING == (n + k - RING) % RING
    ensures n + k < RING ==> (n + k) % RING == n + k
  {
  }

  lemma {:induction false} WalkStep(slots: seq<Option<Vote>>, cur: nat, votes: seq<Vote>, k: nat)
    requires RingHolds(slots, cur, votes) && k < RING && votes != []
    ensures Walk(slots, cur, k + 1) == Walk(slots, cur, k) + Met(votes, k)
  {
    Ahead(|votes|, k);
    assert slots[(cur + k) % RING] == if Met(votes, k) == [] then None else Some(Met(votes, k)[0]);
  }

  lemma {:induction false} WalkIsMet(slots: seq<Option<Vote>>, cur: nat, votes: seq<Vote>, k: nat)
    requires RingHolds(slots, cur, votes) && k <= RING && votes != []
    ensures Walk(slots, cur, k) == MetUpTo(votes, k)
  {
    if k == 0 {
    } else {
      WalkStep(slots, cur, votes, k - 1);
      WalkIsMet(slots, cur, votes, k - 1);
    }
  }

  function MetUpTo(votes: seq<Vote>, k: nat): seq<Vote>
    requires votes != [] && k <= RING
  {
    if k == 0 then [] else MetUpTo(votes, k - 1) + Met(votes, k - 1)
  }

  /** The votes of the queue that a walk of `k` steps meets after the newest. */
  function Older(votes: seq<Vote>, k: nat): seq<Vote>
    requires votes != [] && 0 < k <= RING
  {
    var lo := if |votes| < RING then 0 else |votes| - RING;
    if |votes| + k <= RING + 1 then [] else votes[lo..|votes| + k - RING - 1]
  }

  lemma OlderGrows(votes: seq<Vote>, k: nat)
    requires votes != [] && 0 < k < RING
    ensures Older(votes, k + 1) == Older(votes, k) + Met(votes, k)
  {
  }

  lemma {:induction false} MetOrder(votes: seq<Vote>, k: nat)
    requires votes != [] && 0 < k <= RING
    ensures MetUpTo(votes, k) == [votes[|votes| - 1]] + Older(votes, k)
  {
    if k == 1 {
      assert MetUpTo(votes, 0) == [];
    } else {
      MetOrder(votes, k - 1);
      OlderGrows(votes, k - 1);
    }
  }

  /** A full walk visits the newest vote first, then the others of the queue from the oldest on. */
  lemma {:induction false} WalkOrder(slots: seq<Option<Vote>>, cur: nat, votes: seq<Vote>)
    requires RingHolds(slots, cur, votes) && votes != []
    ensures var n, last := |votes|, Last(votes);
            Walk(slots, cur, RING) == [votes[n - 1]] + last[..|last| - 1]
  {
    WalkIsMet(slots, cur, votes, RING);
    MetOrder(votes, RING);
  }

  /** So a full walk counts for every pod exactly the votes of the queue. */
  lemma {:induction false} WalkCountsLast(slots: seq<Option<Vote>>, cur: nat, votes: seq<Vote>, p: string, since: int)
    requires RingHolds(slots, cur, votes)
    ensures Count(Walk(slots, cur, RING), p, since) == Count(Last(votes), p, since)
  {
    if votes == [] {
      WalkEmpty(slots, cur, RING);
    } else {
      var n := |votes|;
      WalkOrder(slots, cur, votes);
      var older := Last(votes)[..|Last(votes)| - 1];
      assert Last(votes) == older + [votes[n - 1]];
      CountConcat([votes[n - 1]], older, p, since);
      CountConcat(older, [votes[n - 1]], p, since);
    }
  }

  lemma {:induction false} WalkEmpty(slots: seq<Option<Vote>>, cur: nat, k: nat)
    requires RingHolds(slots, cur, [])
    ensures Walk(slots, cur, k) == []
  {
    if k == 0 {
    } else {
      WalkEmpty(slots, cur, k - 1);
    }
  }

  // ---- tallies -------------------------------------------------------------------------------

  /** The tallies of the listed pods that have any fresh vote. */
  ghost predicate TallyOf(tallies: map<string, nat>, names: set<string>, vs: seq<Vote>, since: int) {
    && (forall p :: p in tallies <==> p in names && Count(vs, p, since) > 0)
    && (forall p | p in tallies :: tallies[p] == Count(vs, p, since))
  }

  function AddVote(tallies: map<string, nat>, names: set<string>, v: Vote, since: int): map<string, nat> {
    if v.pod in names && v.time >= since then
      tallies[v.pod := (if v.pod in tallies then tallies[v.pod] else 0) + 1]
    else tallies
  }

  lemma {:induction false} TallyStep(tallies: map<string, nat>, names: set<string>, vs: seq<Vote>, v: Vote, since: int)
    requires TallyOf(tallies, names, vs, since)
    ensures TallyOf(AddVote(tallies, names, v, since), names, vs + [v], since)
  {
    var tallies' := AddVote(tallies, names, v, since);
    forall p
      ensures p in tallies' <==> p in names && Count(vs + [v], p, since) > 0
      ensures p in tallies' ==> tallies'[p] == Count(vs + [v], p, since)
    {
      CountOneMore(vs, v, p, since);
    }
  }

  /** With the tallies of a full walk, having enough of them is what qualifies a pod. */
  lemma {:induction false} TallyDecides(cfg: Settings, slots: seq<Option<Vote>>, cur: nat, votes: seq<Vote>, r: Round,
                     tallies: map<string, nat>, names: set<string>, p: string)
    requires RingHolds(slots, cur, votes) && cfg.minVotes >= 1
    requires TallyOf(tallies, names, Walk(slots, cur, RING), Since(cfg, r))
    requires p in names <==> Listed(r, p)
    ensures Qualifies(cfg, votes, r, p) <==> p in tallies && tallies[p] >= cfg.minVotes
  {
    WalkCountsLast(slots, cur, votes, p, Since(cfg, r));
  }

  /** What the third loop may answer: any pod with enough tallies, "" only if there is none. */
  ghost predicate Chosen(minVotes: nat, tallies: map<string, nat>, pod: string) {
    && (pod == "" ==> forall p | p in tallies :: tallies[p] < minVotes)
    && (pod != "" ==> pod in tallies && tallies[pod] >= minVotes)
  }

  lemma {:induction false} ChosenQualifies(cfg: Settings, slots: seq<Option<Vote>>, cur: nat, votes: seq<Vote>, r: Round,
                        tallies: map<string, nat>, names: set<string>, pod: string)
    requires RingHolds(slots, cur, votes) && cfg.minVotes >= 1 && ValidRound(r)
    requires TallyOf(tallies, names, Walk(slots, cur, RING), Since(cfg, r))
    requires forall p :: p in names <==> Listed(r, p)
    requires Chosen(cfg.minVotes, tallies, pod)
    ensures pod == "" <==> forall p :: !Qualifies(cfg, votes, r, p)
    ensures pod != "" ==> Qualifies(cfg, votes, r, pod)
  {
    forall p
      ensures Qualifies(cfg, votes, r, p) <==> p in tallies && tallies[p] >= cfg.minVotes
    {
      TallyDecides(cfg, slots, cur, votes, r, tallies, names, p);
    }
  }

  lemma {:induction false} HistoryExtends(cfg: Settings, rs: seq<Round>, r: Round)
    requires ValidRounds(rs) && ValidRound(r)
    ensures ValidRounds(rs + [r]) && History(cfg, rs + [r]) == History(cfg, rs) + Cast(cfg, r)
  {
    assert (rs + [r])[..|rs|] == rs;
  }

  // ---- targets -------------------------------------------------------------------------------

  /** What a tick sees of one target: the pods, a scrape per pod (None: it failed), and the clock. */
  datatype Target = ListFailed | Target(pods: seq<Pod>, scrapes: seq<Option<real>>, at: seq<int>, tallyAt: int)

  ghost predicate ValidTarget(t: Target) {
    t.Target? ==>
      && |t.scrapes| == |t.pods| == |t.at|
      && (forall i | 0 <= i < |t.pods| :: t.pods[i].name != "")
      && (forall i, j | 0 <= i < j < |t.pods| :: t.pods[i].name != t.pods[j].name)
  }

  function ConnectionCount(t: Target, i: nat): real
    requires t.Target? && |t.scrapes| == |t.pods| && i < |t.pods|
  {
    if t.pods[i].ready && t.scrapes[i].Some? then t.scrapes[i].value else 0.0
  }

  function Counts(t: Target): (cs: seq<real>)
    requires t.Target? && |t.scrapes| == |t.pods|
    ensures |cs| == |t.pods|
    ensures forall i | 0 <= i < |cs| :: cs[i] == ConnectionCount(t, i)
  {
    seq(|t.pods|, i requires 0 <= i < |t.pods| => ConnectionCount(t, i))
  }

  predicate Rebalanced(t: Target) {
    t.Target? && |t.scrapes| == |t.pods| && ReadyPods(t.pods) >= 3
  }

  function RoundOf(t: Target): Round
    requires Rebalanced(t)
  {
    Round(t.pods, Counts(t), Sum(Counts(t)) / ReadyPods(t.pods) as real, t.at, t.tallyAt)
  }

  ghost function RoundsOfTarget(t: Target): seq<Round> {
    if Rebalanced(t) then [RoundOf(t)] else []
  }

  /** The rounds a tick runs: one per target that lists and has three ready pods. */
  ghost function RoundsOf(ts: seq<Target>): seq<Round> {
    if ts == [] then [] else RoundsOf(ts[..|ts| - 1]) + RoundsOfTarget(ts[|ts| - 1])
  }

  /** What a round is made of: scraped counts of ready pods, zero for all others, and the
      mean over the ready ones. */
  lemma RoundOfMeans(t: Target, i: nat)
    requires Rebalanced(t) && ValidTarget(t) && i < |t.pods|
    ensures var r := RoundOf(t);
            && r.pods == t.pods && r.at == t.at && r.tallyAt == t.tallyAt && |r.counts| == |t.pods|
            && (t.pods[i].ready && t.scrapes[i].Some? ==> r.counts[i] == t.scrapes[i].value)
            && (!t.pods[i].ready || t.scrapes[i].None? ==> r.counts[i] == 0.0)
            && r.avg * |ReadySet(t.pods)| as real == Sum(r.counts)
  {
    ReadyPodsIsCount(t.pods);
    Quotient(Sum(Counts(t)), ReadyPods(t.pods) as real);
  }

  /** With scrapes that are not negative, the rounds are measured as the bounds on votes need. */
  lemma RoundOfIsMeasured(t: Target)
    requires Rebalanced(t) && ValidTarget(t)
    requires forall i | 0 <= i < |t.scrapes| && t.scrapes[i].Some? :: t.scrapes[i].value >= 0.0
    ensures Measured(RoundOf(t))
  {
  }

  /** Eviction of a pod at the end of the given rounds: justified by the votes of whole run. */
  ghost predicate Justified(cfg: Settings, rs: seq<Round>, pod: string) {
    && rs != [] && ValidRounds(rs)
    && ReadyPods(rs[|rs| - 1].pods) >= 3
    && Listed(rs[|rs| - 1], pod)
    && |VotedRounds(cfg, rs, pod, rs[|rs| - 1].tallyAt - cfg.voteTTL)| >= cfg.minVotes
  }

  /** The same for target `i` of a tick that started after the rounds `rs`. */
  ghost predicate JustifiedAt(cfg: Settings, rs: seq<Round>, ts: seq<Target>, i: nat, pod: string)
    requires i < |ts|
  {
    Rebalanced(ts[i]) && Justified(cfg, rs + RoundsOf(ts[..i + 1]), pod)
  }

  /** On the votes of the run up to and including target `i`, this pod of it has enough. */
  ghost predicate QualifiesAt(cfg: Settings, rs: seq<Round>, ts: seq<Target>, i: nat, pod: string)
    requires i < |ts|
  {
    && ts[i].Target? && |ts[i].scrapes| == |ts[i].pods| && ReadyPods(ts[i].pods) >= 3
    && var run := rs + RoundsOf(ts[..i + 1]);
    ValidRounds(run) && Qualifies(cfg, History(cfg, run), RoundOf(ts[i]), pod)
  }

  predicate EvictsFrom(evicted: seq<(nat, string)>, i: nat) {
    exists e | e in evicted :: e.0 == i
  }

  /** One pod at most for each target, in the order of the targets. */
  ghost predicate InOrder(evicted: seq<(nat, string)>) {
    forall k, l | 0 <= k < l < |evicted| :: evicted[k].0 < evicted[l].0
  }

  lemma {:induction false} RoundsExtend(rs: seq<Round>, ts: seq<Target>, i: nat)
    requires i < |ts|
    ensures rs + RoundsOf(ts[..i + 1]) == rs + RoundsOf(ts[..i]) + RoundsOfTarget(ts[i])
  {
    assert ts[..i + 1][..i] == ts[..i];
  }

  // ---- the evictions of a tick ---------------------------------------------------------------

  /** The answers of the first `n` targets, where `q` says which pods of a target have
      enough votes: such a pod for every target that has one, in order, and no other. */
  ghost predicate OnePerTarget(q: (nat, string) -> bool, n: nat, evicted: seq<(nat, string)>) {
    && (forall e | e in evicted :: e.0 < n && q(e.0, e.1))
    && (forall i: nat, p | i < n && q(i, p) :: EvictsFrom(evicted, i))
    && InOrder(evicted)
  }

  function Evict(evicted: seq<(nat, string)>, i: nat, pod: string): seq<(nat, string)> {
    if pod == "" then evicted else evicted + [(i, pod)]
  }

  lemma {:induction false} EvictionAdded(q: (nat, string) -> bool, i: nat, evicted: seq<(nat, string)>, pod: string)
    requires OnePerTarget(q, i, evicted)
    requires if pod == "" then forall p :: !q(i, p) else q(i, pod)
    ensures OnePerTarget(q, i + 1, Evict(evicted, i, pod))
  {
    var more := Evict(evicted, i, pod);
    if pod != "" {
      assert more[|evicted|] == (i, pod) && (i, pod) in more;
      forall k, l | 0 <= k < l < |more|
        ensures more[k].0 < more[l].0
      {
        assert evicted[k] in evicted;
      }
    }
    forall j | EvictsFrom(evicted, j)
      ensures EvictsFrom(more, j)
    {
      var e :| e in evicted && e.0 == j;
      assert e in more;
    }
  }

  /** What one target answers at the end of the given rounds: a pod that has enough votes,
      or none if no pod has. */
  ghost predicate TargetAnswer(cfg: Settings, run: seq<Round>, t: Target, pod: string) {
    && ValidRounds(run)
    && (pod != "" ==> Rebalanced(t) && Qualifies(cfg, History(cfg, run), RoundOf(t), pod))
    && (pod == "" && Rebalanced(t) ==> forall p :: !Qualifies(cfg, History(cfg, run), RoundOf(t), p))
  }

  /** The pods of each target of a tick that have enough votes. */
  ghost function Due(cfg: Settings, rs: seq<Round>, ts: seq<Target>): (nat, string) -> bool {
    (i: nat, p: string) => i < |ts| && QualifiesAt(cfg, rs, ts, i, p)
  }

  lemma {:induction false} AnswerIsDue(cfg: Settings, rs: seq<Round>, ts: seq<Target>, i: nat, pod: string)
    requires i < |ts|
    requires TargetAnswer(cfg, rs + RoundsOf(ts[..i + 1]), ts[i], pod)
    ensures if pod == "" then forall p :: !Due(cfg, rs, ts)(i, p) else Due(cfg, rs, ts)(i, pod)
  {
  }

  lemma {:induction false} TickStep(cfg: Settings, rs: seq<Round>, ts: seq<Target>, i: nat, evicted: seq<(nat, string)>, pod: string)
    requires i < |ts| && OnePerTarget(Due(cfg, rs, ts), i, evicted)
    requires TargetAnswer(cfg, rs + RoundsOf(ts[..i]) + RoundsOfTarget(ts[i]), ts[i], pod)
    ensures rs + RoundsOf(ts[..i + 1]) == rs + RoundsOf(ts[..i]) + RoundsOfTarget(ts[i])
    ensures OnePerTarget(Due(cfg, rs, ts), i + 1, Evict(evicted, i, pod))
  {
    RoundsExtend(rs, ts, i);
    AnswerIsDue(cfg, rs, ts, i, pod);
    EvictionAdded(Due(cfg, rs, ts), i, evicted, pod);
  }

  /** The run up to a target that is rebalanced ends with the round of that target. */
  lemma {:induction false} RunEndsWith(rs: seq<Round>, ts: seq<Target>, i: nat)
    requires i < |ts| && Rebalanced(ts[i])
    ensures var run := rs + RoundsOf(ts[..i + 1]); run != [] && run[|run| - 1] == RoundOf(ts[i])
  {
    assert ts[..i + 1][..i] == ts[..i];
  }

  lemma {:induction false} DueIsJustified(cfg: Settings, rs: seq<Round>, ts: seq<Target>, i: nat, pod: string)
    requires i < |ts| && QualifiesAt(cfg, rs, ts, i, pod)
    ensures JustifiedAt(cfg, rs, ts, i, pod)
  {
    RunEndsWith(rs, ts, i);
    QualifiedIsJustified(cfg, rs + RoundsOf(ts[..i + 1]), pod);
  }

  /** The evictions of a whole tick: one for every target where some pod has enough votes,
      in order, each justified by the run up to it. */
  ghost predicate RightlyEvicted(cfg: Settings, rs: seq<Round>, ts: seq<Target>, evicted: seq<(nat, string)>) {
    && OnePerTarget(Due(cfg, rs, ts), |ts|, evicted)
    && forall e | e in evicted :: e.0 < |ts| && JustifiedAt(cfg, rs, ts, e.0, e.1)
  }

  lemma {:induction false} AllJustified(cfg: Settings, rs: seq<Round>, ts: seq<Target>, evicted: seq<(nat, string)>)
    requires OnePerTarget(Due(cfg, rs, ts), |ts|, evicted)
    ensures RightlyEvicted(cfg, rs, ts, evicted)
  {
    forall e | e in evicted
      ensures e.0 < |ts| && JustifiedAt(cfg, rs, ts, e.0, e.1)
    {
      DueIsJustified(cfg, rs, ts, e.0, e.1);
    }
  }

  lemma {:induction false} QualifiedIsJustified(cfg: Settings, rs: seq<Round>, pod: string)
    requires ValidRounds(rs) && rs != [] && ReadyPods(rs[|rs| - 1].pods) >= 3
    requires Qualifies(cfg, History(cfg, rs), rs[|rs| - 1], pod)
    ensures Justified(cfg, rs, pod)
  {
    EvictionSafety(cfg, rs, pod);
  }

  lemma {:induction false} GatherStep(pods: seq<Pod>, counts: seq<real>, i: nat)
    requires i < |pods| == |counts|
    ensures ReadyPods(pods[..i + 1]) == ReadyPods(pods[..i]) + if pods[i].ready then 1 else 0
    ensures Sum(counts[..i + 1]) == Sum(counts[..i]) + counts[i]
    ensures counts[..i + 1] == counts[..i] + [counts[i]]
  {
    assert pods[..i + 1][..i] == pods[..i] && counts[..i + 1][..i] == counts[..i];
  }

  // ---- the watchdog --------------------------------------------------------------------------

  class ConcurrencyWatchdog {
    const cfg: Settings
    const slots: array<Option<Vote>>
    var cur: nat
    ghost var rounds: seq<Round>

    ghost predicate Valid()
      reads this, slots
    {
      Validated(cfg) && ValidRounds(rounds) && RingHolds(slots[..], cur, History(cfg, rounds))
    }

    constructor (cfg: Settings)
      requires Validated(cfg)
      ensures Valid() && rounds == [] && this.cfg == cfg && fresh(slots)
    {
      this.cfg := cfg;
      slots := new Option<Vote>[RING](i => None);
      cur := 0;
      rounds := [];
    }

    method Record(v: Vote, ghost votes: seq<Vote>)
      requires RingHolds(slots[..], cur, votes)
      modifies this`cur, slots
      ensures RingHolds(slots[..], cur, votes + [v])
    {
      RecordExtends(slots[..], cur, votes, v);
      cur := (cur + 1) % RING;
      slots[cur] := Some(v);
    }

    /** The first loop: votes on outliers. */
    method CastVotes(r: Round) returns (names: set<string>)
      requires Valid() && ValidRound(r)
      modifies this`cur, slots
      ensures RingHolds(slots[..], cur, History(cfg, rounds) + Cast(cfg, r))
      ensures forall p :: p in names <==> Listed(r, p)
    {
      names := {};
      ghost var h := History(cfg, rounds);
      assert h + [] == h;
      for i := 0 to |r.pods|
        invariant RingHolds(slots[..], cur, h + CastUpTo(cfg, r, i))
        invariant forall p :: p in names <==> exists j | 0 <= j < i :: r.pods[j].name == p
      {
        names := names + {r.pods[i].name};
        if !(Below(r.counts[i], r.avg, cfg.threshold) || r.at[i] - r.pods[i].created < cfg.minPodAge) {
          var v := Vote(r.pods[i].name, r.at[i]);
          Record(v, h + CastUpTo(cfg, r, i));
          assert h + CastUpTo(cfg, r, i) + [v] == h + CastUpTo(cfg, r, i + 1);
        } else {
          assert CastUpTo(cfg, r, i + 1) == CastUpTo(cfg, r, i);
        }
      }
    }

    /** The second loop: fresh votes per listed pod. */
    method Tally(names: set<string>, since: int) returns (tallies: map<string, nat>)
      requires slots.Length == RING
      ensures TallyOf(tallies, names, Walk(slots[..], cur, RING), since)
    {
      tallies := map[];
      for k := 0 to RING
        invariant TallyOf(tallies, names, Walk(slots[..], cur, k), since)
      {
        ghost var before := Walk(slots[..], cur, k);
        var s := slots[(cur + k) % RING];
        if s.Some? {
          var v := s.value;
          TallyStep(tallies, names, before, v, since);
          if v.pod in names && v.time >= since {
            tallies := tallies[v.pod := (if v.pod in tallies then tallies[v.pod] else 0) + 1];
          }
        } else {
          assert Walk(slots[..], cur, k + 1) == before;
        }
      }
    }

    /** The third loop: any pod with enough votes, in whatever order the map is walked. */
    method Choose(tallies: map<string, nat>) returns (pod: string)
      requires cfg.minVotes >= 1 && "" !in tallies
      ensures Chosen(cfg.minVotes, tallies, pod)
    {
      var rest := tallies.Keys;
      while rest != {}
        invariant rest <= tallies.Keys
        invariant forall p | p in tallies && p !in rest :: tallies[p] < cfg.minVotes
        decreases |rest|
      {
        var p :| p in rest;
        if tallies[p] >= cfg.minVotes {
          return p;
        }
        rest := rest - {p};
      }
      return "";
    }

    /** A pod is returned exactly when some listed pod has enough fresh votes among
        the last twenty ever cast, and then it is such a pod. */
    method ProcessVotes(r: Round) returns (pod: string)
      requires Valid() && ValidRound(r)
      modifies this, slots
      ensures Valid() && rounds == old(rounds) + [r]
      ensures pod == "" <==> forall p :: !Qualifies(cfg, History(cfg, rounds), r, p)
      ensures pod != "" ==> Qualifies(cfg, History(cfg, rounds), r, pod)
    {
      var names := CastVotes(r);
      HistoryExtends(cfg, rounds, r);
      rounds := rounds + [r];
      var tallies := Tally(names, Since(cfg, r));
      pod := Choose(tallies);
      ChosenQualifies(cfg, slots[..], cur, History(cfg, rounds), r, tallies, names, pod);
    }

    /** The measuring loop of a tick. */
    method Gather(t: Target) returns (counts: seq<real>, ready: nat, total: real)
      requires t.Target? && ValidTarget(t)
      ensures counts == Counts(t) && ready == ReadyPods(t.pods) && total == Sum(Counts(t))
    {
      counts, ready, total := [], 0, 0.0;
      for i := 0 to |t.pods|
        invariant counts == Counts(t)[..i]
        invariant ready == ReadyPods(t.pods[..i]) && total == Sum(Counts(t)[..i])
      {
        GatherStep(t.pods, Counts(t), i);
        if t.pods[i].ready {
          ready := ready + 1;
          if t.scrapes[i].Some? {
            counts := counts + [t.scrapes[i].value];
            total := total + t.scrapes[i].value;
          } else {
            counts := counts + [0.0];
          }
        } else {
          counts := counts + [0.0];
        }
      }
      assert t.pods[..|t.pods|] == t.pods && Counts(t)[..|t.pods|] == Counts(t);
    }

    /** One target of a tick: at most one pod is sent to eviction. */
    method TickTarget(t: Target) returns (pod: string)
      requires Valid() && ValidTarget(t)
      modifies this, slots
      ensures Valid() && rounds == old(rounds) + RoundsOfTarget(t)
      ensures TargetAnswer(cfg, rounds, t, pod)
    {
      if t.ListFailed? {
        return "";
      }
      var counts, ready, total := Gather(t);
      if ready < 3 {
        return "";
      }
      var r := Round(t.pods, counts, total / ready as real, t.at, t.tallyAt);
      assert r == RoundOf(t);
      pod := ProcessVotes(r);
    }

    /** A whole tick: its targets in order, each eviction (target, pod) justified by the run
        up to it, and one for every target where some pod has enough votes. */
    method Tick(ts: seq<Target>) returns (evicted: seq<(nat, string)>)
      requires Valid() && forall i | 0 <= i < |ts| :: ValidTarget(ts[i])
      modifies this, slots
      ensures Valid() && rounds == old(rounds) + RoundsOf(ts)
      ensures RightlyEvicted(cfg, old(rounds), ts, evicted)
    {
      evicted := [];
      ghost var rs := rounds;
      assert rounds == rs + RoundsOf(ts[..0]);
      for i := 0 to |ts|
        invariant Valid() && rounds == rs + RoundsOf(ts[..i])
        invariant OnePerTarget(Due(cfg, rs, ts), i, evicted)
      {
        ghost var before := evicted;
        var pod := TickTarget(ts[i]);
        if pod != "" {
          evicted := evicted + [(i, pod)];
        }
        TickStep(cfg, rs, ts, i, before, pod);
      }
      assert ts[..|ts|] == ts;
      AllJustified(cfg, rs, ts, evicted);
    }
  }
}
