/** Why a round can never vote on everybody: with a threshold above the mean, the
    pods at or above it are a proper minority of the ready ones. */
module WatchdogArithmetic {
  import opened Votes

  function Sum(xs: seq<real>): real {
    if xs == [] then 0.0 else Sum(xs[..|xs| - 1]) + xs[|xs| - 1]
  }

  function ReadyPods(pods: seq<Pod>): (n: nat)
    ensures n <= |pods|
  {
    if pods == [] then 0 else ReadyPods(pods[..|pods| - 1]) + if pods[|pods| - 1].ready then 1 else 0
  }

  ghost function ReadySet(pods: seq<Pod>): set<nat> {
    set i: nat | i < |pods| && pods[i].ready
  }

  lemma {:induction false} ReadyPodsIsCount(pods: seq<Pod>)
    ensures ReadyPods(pods) == |ReadySet(pods)|
  {
    if pods == [] {
      assert ReadySet(pods) == {};
    } else {
      var n := |pods| - 1;
      ReadyPodsIsCount(pods[..n]);
      assert ReadySet(pods) == ReadySet(pods[..n]) + if pods[n].ready then {n} else {};
    }
  }

  /** How `tick` fills a round: counts are non-negative, pods that are not ready
      count zero, and the mean is over all ready pods. */
  ghost predicate Measured(r: Round) {
    && ValidRound(r)
    && (forall i | 0 <= i < |r.pods| :: r.counts[i] >= 0.0 && (!r.pods[i].ready ==> r.counts[i] == 0.0))
    && ReadyPods(r.pods) > 0
    && r.avg == Sum(r.counts) / ReadyPods(r.pods) as real
  }

  lemma {:induction false} SumNonNegative(xs: seq<real>)
    requires forall i | 0 <= i < |xs| :: xs[i] >= 0.0
    ensures Sum(xs) >= 0.0
    ensures forall i | 0 <= i < |xs| :: xs[i] <= Sum(xs)
  {
    if xs == [] {
    } else {
      SumNonNegative(xs[..|xs| - 1]);
    }
  }

  // ---- arithmetic on reals -------------------------------------------------------------------

  lemma ScaleUp(a: real, b: real, m: real)
    requires m > 0.0
    ensures a < b <==> a * m < b * m
  {
    assert (b - a) * m == b * m - a * m;
  }

  lemma Quotient(a: real, b: real)
    requires b != 0.0
    ensures a / b * b == a
  {
  }

  lemma DivisionUndone(a: real, b: real, t: real)
    requires b > 0.0
    ensures a / b * 100.0 < t <==> 100.0 * a < t * b
  {
    var q := a / b;
    Quotient(a, b);
    ScaleUp(q * 100.0, t, b);
    assert q * 100.0 * b == 100.0 * (q * b);
  }

  lemma ShareArithmetic(c: real, n: real, total: real, t: real)
    requires n > 0.0 && total > 0.0
    ensures total / n > 0.0
    ensures c / (total / n) * 100.0 < t <==> 100.0 * n * c < t * total
  {
    var avg := total / n;
    Quotient(total, n);
    ScaleUp(0.0, avg, n);
    DivisionUndone(c, avg, t);
    ScaleUp(100.0 * c, t * avg, n);
    assert t * avg * n == t * (avg * n);
    assert 100.0 * c * n == 100.0 * n * c;
  }

  /** `m` times the total pays for `k` shares of `x`. */
  predicate Affords(m: real, total: real, k: nat, x: real) {
    k as real * x <= m * total
  }

  lemma BoundFromShares(k: nat, n: nat, t: real, total: real, m: real, x: real)
    requires t > 100.0 && n > 0 && total > 0.0 && m == 100.0 * n as real && x == t * total
    requires Affords(m, total, k, x)
    ensures k as real * t <= 100.0 * n as real
    ensures k < n
  {
    var v := k as real;
    assert v * (t * total) == v * t * total;
    ScaleUp(m, v * t, total);
    FewerThan(v, n as real, t);
  }

  lemma FewerThan(v: real, n: real, t: real)
    requires t > 100.0 && v >= 0.0 && n > 0.0 && v * t <= 100.0 * n
    ensures v < n
  {
    ScaleUp(100.0, t, n);
    assert (v - n) * t == v * t - n * t;
  }

  lemma OneMore(k: nat, x: real)
    ensures (k + 1) as real * x == k as real * x + x
  {
    assert (k + 1) as real == k as real + 1.0;
  }

  lemma ScaleSum(m: real, a: real, b: real)
    ensures m * (a + b) == m * a + m * b
  {
  }

  // ---- votes and connections -----------------------------------------------------------------

  /** At least `t` percent of the mean of `total` over `n`, with the divisions multiplied out. */
  predicate HasShare(c: real, n: real, total: real, t: real) {
    100.0 * n * c >= t * total
  }

  lemma MeanShare(c: real, n: real, total: real, avg: real, t: real)
    requires n > 0.0 && total >= 0.0 && avg == total / n && (total == 0.0 ==> c == 0.0)
    ensures !Below(c, avg, t) <==> HasShare(c, n, total, t)
  {
    if total == 0.0 {
      assert avg == 0.0;
    } else {
      ShareArithmetic(c, n, total, t);
    }
  }

  /** The test of `processVotes`, with the divisions multiplied out. It also covers
      the round without any connection, where every old pod gets a vote. */
  lemma RankIffShare(r: Round, threshold: real, i: nat)
    requires Measured(r) && i < |r.pods|
    ensures !Below(r.counts[i], r.avg, threshold) <==>
            HasShare(r.counts[i], ReadyPods(r.pods) as real, Sum(r.counts), threshold)
  {
    SumNonNegative(r.counts);
    MeanShare(r.counts[i], ReadyPods(r.pods) as real, Sum(r.counts), r.avg, threshold);
  }

  /** `k` shares of `x`, as a sum. */
  function Shares(k: nat, x: real): real {
    if k == 0 then 0.0 else Shares(k - 1, x) + x
  }

  lemma {:induction false} SharesIsProduct(k: nat, x: real)
    ensures Shares(k, x) == k as real * x
  {
    if k == 0 {
    } else {
      SharesIsProduct(k - 1, x);
      OneMore(k - 1, x);
    }
  }

  function Scaled(m: real, xs: seq<real>): seq<real> {
    if xs == [] then [] else Scaled(m, xs[..|xs| - 1]) + [m * xs[|xs| - 1]]
  }

  lemma {:induction false} ScaledAt(m: real, xs: seq<real>, i: nat)
    ensures |Scaled(m, xs)| == |xs|
    ensures i < |xs| ==> Scaled(m, xs)[i] == m * xs[i]
  {
    if xs == [] {
    } else {
      ScaledAt(m, xs[..|xs| - 1], i);
    }
  }

  lemma {:induction false} ScaledStep(m: real, xs: seq<real>)
    requires xs != []
    ensures Sum(Scaled(m, xs)) == Sum(Scaled(m, xs[..|xs| - 1])) + m * xs[|xs| - 1]
  {
    assert Scaled(m, xs)[..|Scaled(m, xs)| - 1] == Scaled(m, xs[..|xs| - 1]);
  }

  lemma {:induction false} SumScaled(m: real, xs: seq<real>)
    ensures Sum(Scaled(m, xs)) == m * Sum(xs)
  {
    if xs == [] {
    } else {
      var n := |xs| - 1;
      SumScaled(m, xs[..n]);
      ScaledStep(m, xs);
      ScaleSum(m, Sum(xs[..n]), xs[n]);
    }
  }

  /** Pod `i` weighs `ws[i]`: never negative, and a full share `x` if it gets a vote. */
  ghost predicate Weighed(cfg: Settings, r: Round, ws: seq<real>, x: real)
    requires ValidRound(r)
  {
    |ws| == |r.pods| && forall i | 0 <= i < |ws| :: ws[i] >= 0.0 && (Eligible(cfg, r, i) ==> ws[i] >= x)
  }

  /** Each vote takes its share of the weight. */
  lemma {:induction false} VotesCostShares(cfg: Settings, r: Round, n: nat, ws: seq<real>, x: real)
    requires ValidRound(r) && n <= |r.pods| && Weighed(cfg, r, ws, x)
    ensures Shares(|CastUpTo(cfg, r, n)|, x) <= Sum(ws[..n])
  {
    if n == 0 {
    } else {
      assert ws[..n][..n - 1] == ws[..n - 1];
      VotesCostShares(cfg, r, n - 1, ws, x);
    }
  }

  lemma PodWeight(cfg: Settings, r: Round, i: nat, m: real, x: real)
    requires Measured(r) && i < |r.pods| && m == 100.0 * ReadyPods(r.pods) as real && x == cfg.threshold * Sum(r.counts)
    ensures m * r.counts[i] >= 0.0 && (Eligible(cfg, r, i) ==> m * r.counts[i] >= x)
  {
    RankIffShare(r, cfg.threshold, i);
    Nonneg(m, r.counts[i]);
  }

  lemma RoundIsWeighed(cfg: Settings, r: Round, m: real, x: real)
    requires Measured(r) && m == 100.0 * ReadyPods(r.pods) as real && x == cfg.threshold * Sum(r.counts)
    ensures Weighed(cfg, r, Scaled(m, r.counts), x)
  {
    var ws := Scaled(m, r.counts);
    ScaledAt(m, r.counts, 0);
    forall i | 0 <= i < |r.pods|
      ensures ws[i] >= 0.0 && (Eligible(cfg, r, i) ==> ws[i] >= x)
    {
      ScaledAt(m, r.counts, i);
      PodWeight(cfg, r, i, m, x);
    }
  }

  lemma RoundShares(cfg: Settings, r: Round, ws: seq<real>, x: real)
    requires ValidRound(r) && Weighed(cfg, r, ws, x)
    ensures Shares(|Cast(cfg, r)|, x) <= Sum(ws)
  {
    VotesCostShares(cfg, r, |r.pods|, ws, x);
    assert ws[..|r.pods|] == ws;
  }

  lemma SharesToProducts(k: nat, x: real, m: real, xs: seq<real>)
    requires Shares(k, x) <= Sum(Scaled(m, xs))
    ensures Affords(m, Sum(xs), k, x)
  {
    SharesIsProduct(k, x);
    SumScaled(m, xs);
  }

  lemma RoundCosts(cfg: Settings, r: Round, m: real, x: real)
    requires ValidRound(r) && Weighed(cfg, r, Scaled(m, r.counts), x)
    ensures Affords(m, Sum(r.counts), |Cast(cfg, r)|, x)
  {
    RoundShares(cfg, r, Scaled(m, r.counts), x);
    SharesToProducts(|Cast(cfg, r)|, x, m, r.counts);
  }

  lemma Nonneg(a: real, b: real)
    requires a >= 0.0 && b >= 0.0
    ensures a * b >= 0.0
  {
  }

  /** A round with connections casts at most 100 * ready / threshold votes, so
      strictly fewer than there are ready pods. */
  lemma VotesBounded(cfg: Settings, r: Round)
    requires Validated(cfg) && Measured(r) && Sum(r.counts) > 0.0
    ensures |Cast(cfg, r)| as real * cfg.threshold <= 100.0 * ReadyPods(r.pods) as real
    ensures |Cast(cfg, r)| < ReadyPods(r.pods)
  {
    var m, x := 100.0 * ReadyPods(r.pods) as real, cfg.threshold * Sum(r.counts);
    RoundIsWeighed(cfg, r, m, x);
    RoundCosts(cfg, r, m, x);
    BoundFromShares(|Cast(cfg, r)|, ReadyPods(r.pods), cfg.threshold, Sum(r.counts), m, x);
  }

  /** If every ready pod got a vote there would be as many votes as ready pods. */
  lemma {:induction false} AllVotedMeansManyVotes(cfg: Settings, r: Round, n: nat)
    requires ValidRound(r) && n <= |r.pods|
    requires forall i | 0 <= i < n :: r.pods[i].ready ==> Eligible(cfg, r, i)
    ensures ReadyPods(r.pods[..n]) <= |CastUpTo(cfg, r, n)|
  {
    if n == 0 {
    } else {
      assert r.pods[..n][..n - 1] == r.pods[..n - 1];
      AllVotedMeansManyVotes(cfg, r, n - 1);
    }
  }

  /** So some ready pod is not voted on. */
  lemma SomeReadyPodIsSpared(cfg: Settings, r: Round) returns (i: nat)
    requires Validated(cfg) && Measured(r) && Sum(r.counts) > 0.0
    ensures i < |r.pods| && r.pods[i].ready && !Eligible(cfg, r, i)
  {
    VotesBounded(cfg, r);
    assert r.pods[..|r.pods|] == r.pods;
    if forall j | 0 <= j < |r.pods| :: r.pods[j].ready ==> Eligible(cfg, r, j) {
      AllVotedMeansManyVotes(cfg, r, |r.pods|);
    }
    i :| 0 <= i < |r.pods| && r.pods[i].ready && !Eligible(cfg, r, i);
  }

  /** Without connections the test is vacuous: every pod that is old enough gets a vote, ready or not. */
  lemma IdleRoundVotesOnAllOldPods(cfg: Settings, r: Round, i: nat)
    requires Measured(r) && Sum(r.counts) == 0.0 && i < |r.pods|
    ensures Eligible(cfg, r, i) <==> r.at[i] - r.pods[i].created >= cfg.minPodAge
  {
    SumNonNegative(r.counts);
  }
}
