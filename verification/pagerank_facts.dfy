/**
 * What the PageRank model promises: how many rounds run and when the loop
 * stops, which positions are never written, how each score is made up, and
 * that scores stay non-negative.
 */
module PageRankFacts {
  import opened Wrappers
  import opened PageRankModel
  import opened PageRankTerms

  /** `k` rounds applied to `start`. */
  ghost function Rounds(g: Graph, sources: seq<nat>, alpha: real, start: seq<real>, k: nat): (v: seq<real>)
    requires Fits(g, |start|) && |sources| > 0 && (k > 0 ==> Admissible(g, sources, |start|))
    ensures |v| == |start|
  {
    if k == 0 then start else Round(g, sources, alpha, Rounds(g, sources, alpha, start, k - 1))
  }

  lemma {:induction false} RoundsShift(g: Graph, sources: seq<nat>, alpha: real, start: seq<real>, k: nat)
    requires Fits(g, |start|) && |sources| > 0 && Admissible(g, sources, |start|)
    ensures Rounds(g, sources, alpha, Round(g, sources, alpha, start), k) == Rounds(g, sources, alpha, start, k + 1)
  {
    if k > 0 {
      RoundsShift(g, sources, alpha, start, k - 1);
    }
  }

  /** The loop from round `round` on returns the vector `k - round` rounds on, `k` being the rounds run in all. */
  lemma {:induction false} RunFromRounds(g: Graph, sources: seq<nat>, alpha: real, maxIterations: int, tolerance: real,
                                         round: nat, cur: seq<real>)
    requires Fits(g, |cur|) && |sources| > 0 && Admissible(g, sources, |cur|)
    ensures var r := RunFrom(g, sources, alpha, maxIterations, tolerance, round, cur);
      r.0 == Rounds(g, sources, alpha, cur, r.1 - round)
    decreases maxIterations - round
  {
    if round < maxIterations {
      var next := Round(g, sources, alpha, cur);
      assert Rounds(g, sources, alpha, cur, 1) == next;
      if Norm(next, cur) >= tolerance {
        RunFromRounds(g, sources, alpha, maxIterations, tolerance, round + 1, next);
        var k := RunFrom(g, sources, alpha, maxIterations, tolerance, round + 1, next).1;
        RoundsShift(g, sources, alpha, cur, k - round - 1);
      }
    }
  }

  /** Every round before the last one run changed the vector by at least `tolerance`. */
  lemma {:induction false} RunFromContinued(g: Graph, sources: seq<nat>, alpha: real, maxIterations: int, tolerance: real,
                                            round: nat, cur: seq<real>, j: nat)
    requires Fits(g, |cur|) && |sources| > 0 && Admissible(g, sources, |cur|)
    requires 0 < j < RunFrom(g, sources, alpha, maxIterations, tolerance, round, cur).1 - round
    ensures Norm(Rounds(g, sources, alpha, cur, j), Rounds(g, sources, alpha, cur, j - 1)) >= tolerance
    decreases maxIterations - round
  {
    var next := Round(g, sources, alpha, cur);
    assert Rounds(g, sources, alpha, cur, 1) == next;
    if j > 1 {
      RunFromContinued(g, sources, alpha, maxIterations, tolerance, round + 1, next, j - 1);
      RoundsShift(g, sources, alpha, cur, j - 1);
      RoundsShift(g, sources, alpha, cur, j - 2);
    }
  }

  /** A loop that ran fewer rounds than allowed broke out on a change below `tolerance`. */
  lemma {:induction false} RunFromBroke(g: Graph, sources: seq<nat>, alpha: real, maxIterations: int, tolerance: real,
                                        round: nat, cur: seq<real>)
    requires Fits(g, |cur|) && |sources| > 0 && Admissible(g, sources, |cur|)
    requires var k := RunFrom(g, sources, alpha, maxIterations, tolerance, round, cur).1; round < k < maxIterations
    ensures var k := RunFrom(g, sources, alpha, maxIterations, tolerance, round, cur).1;
      Norm(Rounds(g, sources, alpha, cur, k - round), Rounds(g, sources, alpha, cur, k - round - 1)) < tolerance
    decreases maxIterations - round
  {
    var next := Round(g, sources, alpha, cur);
    assert Rounds(g, sources, alpha, cur, 0) == cur;
    assert Rounds(g, sources, alpha, cur, 1) == next;
    if Norm(next, cur) >= tolerance {
      var k := RunFrom(g, sources, alpha, maxIterations, tolerance, round + 1, next).1;
      assert k == RunFrom(g, sources, alpha, maxIterations, tolerance, round, cur).1;
      RunFromBroke(g, sources, alpha, maxIterations, tolerance, round + 1, next);
      RoundsShift(g, sources, alpha, cur, k - round - 1);
      RoundsShift(g, sources, alpha, cur, k - round - 2);
    }
  }

  /** With no positive `maximum_iterations` the loop body never runs: the seeded vector comes back. */
  lemma NoRounds(g: Graph, sources: seq<nat>, alpha: real, maxIterations: int, tolerance: real)
    requires g != map[] && |sources| > 0 && maxIterations < 1
    requires forall s :: s in sources ==> s < Size(g)
    ensures Outcome(g, sources, alpha, maxIterations, tolerance) == Ok(Seeded(Size(g), sources))
  {
  }

  /** How many rounds `pagerank` runs before it returns. */
  ghost function RoundsTaken(g: Graph, sources: seq<nat>, alpha: real, maxIterations: int, tolerance: real): nat
    requires Outcome(g, sources, alpha, maxIterations, tolerance).Ok?
  {
    RunFrom(g, sources, alpha, maxIterations, tolerance, 0, Seeded(Size(g), sources)).1
  }

  /** A run that returns had a graph, sources inside the vector and, when any round ran, every share defined. */
  lemma OutcomeOk(g: Graph, sources: seq<nat>, alpha: real, maxIterations: int, tolerance: real)
    requires Outcome(g, sources, alpha, maxIterations, tolerance).Ok?
    ensures g != map[] && |sources| > 0 && forall s :: s in sources ==> s < Size(g)
    ensures maxIterations >= 1 ==> Admissible(g, sources, Size(g))
    ensures Outcome(g, sources, alpha, maxIterations, tolerance).value
         == RunFrom(g, sources, alpha, maxIterations, tolerance, 0, Seeded(Size(g), sources)).0
  {
  }

  /**
   * `pagerank` runs `k` rounds from the seeded vector, between one and
   * `maximum_iterations`, and returns the vector after them.
   */
  lemma RoundsRun(g: Graph, sources: seq<nat>, alpha: real, maxIterations: int, tolerance: real)
    requires Outcome(g, sources, alpha, maxIterations, tolerance).Ok? && maxIterations >= 1
    ensures Admissible(g, sources, Size(g))
    ensures var k := RoundsTaken(g, sources, alpha, maxIterations, tolerance);
      && 0 < k <= maxIterations
      && Outcome(g, sources, alpha, maxIterations, tolerance).value == Rounds(g, sources, alpha, Seeded(Size(g), sources), k)
  {
    OutcomeOk(g, sources, alpha, maxIterations, tolerance);
    RunFromRounds(g, sources, alpha, maxIterations, tolerance, 0, Seeded(Size(g), sources));
  }

  /** Every round before the last one `pagerank` runs changed the vector by at least `tolerance`. */
  lemma RoundsContinued(g: Graph, sources: seq<nat>, alpha: real, maxIterations: int, tolerance: real, j: nat)
    requires Outcome(g, sources, alpha, maxIterations, tolerance).Ok? && maxIterations >= 1
    requires 0 < j < RoundsTaken(g, sources, alpha, maxIterations, tolerance)
    ensures Admissible(g, sources, Size(g))
    ensures var seed := Seeded(Size(g), sources);
      Norm(Rounds(g, sources, alpha, seed, j), Rounds(g, sources, alpha, seed, j - 1)) >= tolerance
  {
    OutcomeOk(g, sources, alpha, maxIterations, tolerance);
    RunFromContinued(g, sources, alpha, maxIterations, tolerance, 0, Seeded(Size(g), sources), j);
  }

  /** `pagerank` stops before `maximum_iterations` only on a round that changed the vector by less than `tolerance`. */
  lemma RoundsBroke(g: Graph, sources: seq<nat>, alpha: real, maxIterations: int, tolerance: real)
    requires Outcome(g, sources, alpha, maxIterations, tolerance).Ok? && maxIterations >= 1
    requires RoundsTaken(g, sources, alpha, maxIterations, tolerance) < maxIterations
    ensures Admissible(g, sources, Size(g))
    ensures var seed := Seeded(Size(g), sources);
      var k := RoundsTaken(g, sources, alpha, maxIterations, tolerance);
      k > 0 && Norm(Rounds(g, sources, alpha, seed, k), Rounds(g, sources, alpha, seed, k - 1)) < tolerance
  {
    OutcomeOk(g, sources, alpha, maxIterations, tolerance);
    RunFromBroke(g, sources, alpha, maxIterations, tolerance, 0, Seeded(Size(g), sources));
  }

  /** With a tolerance that is not positive no change is small enough: every allowed round runs. */
  lemma ZeroToleranceRunsAll(g: Graph, sources: seq<nat>, alpha: real, maxIterations: int, tolerance: real)
    requires Outcome(g, sources, alpha, maxIterations, tolerance).Ok? && maxIterations >= 1 && tolerance <= 0.0
    ensures RoundsTaken(g, sources, alpha, maxIterations, tolerance) == maxIterations
  {
    RoundsRun(g, sources, alpha, maxIterations, tolerance);
    if RoundsTaken(g, sources, alpha, maxIterations, tolerance) < maxIterations {
      RoundsBroke(g, sources, alpha, maxIterations, tolerance);
    }
  }

  // ---- positions that are not keys ----

  /** A round leaves a position that is not a key as it was. */
  lemma RoundKeeps(g: Graph, sources: seq<nat>, alpha: real, prev: seq<real>, i: nat)
    requires Fits(g, |prev|) && |sources| > 0 && Admissible(g, sources, |prev|) && i < |prev| && i !in g
    ensures Round(g, sources, alpha, prev)[i] == prev[i]
  {
    RoundAt(g, sources, alpha, prev, i);
  }

  lemma {:induction false} RunFromKeeps(g: Graph, sources: seq<nat>, alpha: real, maxIterations: int, tolerance: real,
                                        round: nat, cur: seq<real>, i: nat)
    requires Fits(g, |cur|) && |sources| > 0 && (round < maxIterations ==> Admissible(g, sources, |cur|))
    requires i < |cur| && i !in g
    ensures RunFrom(g, sources, alpha, maxIterations, tolerance, round, cur).0[i] == cur[i]
    decreases maxIterations - round
  {
    if round < maxIterations {
      var next := Round(g, sources, alpha, cur);
      RoundKeeps(g, sources, alpha, cur, i);
      if Norm(next, cur) >= tolerance {
        RunFromKeeps(g, sources, alpha, maxIterations, tolerance, round + 1, next, i);
      }
    }
  }

  /**
   * An id in `[0, n)` that is not a key is never assigned: it ends with its
   * seeded value, `1/m` for a source and 0 otherwise.
   */
  lemma Untouched(g: Graph, sources: seq<nat>, alpha: real, maxIterations: int, tolerance: real, i: nat)
    requires Outcome(g, sources, alpha, maxIterations, tolerance).Ok?
    requires i < Size(g) && i !in g
    ensures Outcome(g, sources, alpha, maxIterations, tolerance).value[i] == if i in sources then 1.0 / (|sources| as real) else 0.0
  {
    OutcomeOk(g, sources, alpha, maxIterations, tolerance);
    RunFromKeeps(g, sources, alpha, maxIterations, tolerance, 0, Seeded(Size(g), sources), i);
  }

  /** `sum(abs(a[i] - b[i]))` over the keys below `k` only. */
  function KeyChange(g: Graph, a: seq<real>, b: seq<real>, k: nat): real
    requires k <= |a| == |b|
  {
    if k == 0 then 0.0
    else KeyChange(g, a, b, k - 1) + if k - 1 in g then Abs(a[k - 1] - b[k - 1]) else 0.0
  }

  lemma {:induction false} ChangeOnKeys(g: Graph, a: seq<real>, b: seq<real>, k: nat)
    requires k <= |a| == |b|
    requires forall i :: 0 <= i < |a| && i !in g ==> a[i] == b[i]
    ensures NormUpTo(a, b, k) == KeyChange(g, a, b, k)
  {
    if k > 0 {
      ChangeOnKeys(g, a, b, k - 1);
    }
  }

  /** Positions that are not keys add nothing to a round's L1 change. */
  lemma RoundChange(g: Graph, sources: seq<nat>, alpha: real, prev: seq<real>)
    requires Fits(g, |prev|) && |sources| > 0 && Admissible(g, sources, |prev|)
    ensures Norm(Round(g, sources, alpha, prev), prev) == KeyChange(g, Round(g, sources, alpha, prev), prev, |prev|)
  {
    var next := Round(g, sources, alpha, prev);
    forall i | 0 <= i < |next| && i !in g
      ensures next[i] == prev[i]
    {
      RoundKeeps(g, sources, alpha, prev, i);
    }
    ChangeOnKeys(g, next, prev, |prev|);
  }

  // ---- the seeded vector ----

  /** `sum(v[:k])` */
  function TotalUpTo(v: seq<real>, k: nat): real
    requires k <= |v|
  {
    if k == 0 then 0.0 else TotalUpTo(v, k - 1) + v[k - 1]
  }

  /** The members of `ids` below `k`. */
  function Below(ids: set<nat>, k: nat): set<nat> {
    set x | x in ids && x < k
  }

  lemma {:induction false} SeededUpTo(n: nat, sources: seq<nat>, k: nat)
    requires |sources| > 0 && k <= n
    ensures TotalUpTo(Seeded(n, sources), k) == (|Below(IdSet(sources), k)| as real) * Weight(sources)
  {
    var ids := IdSet(sources);
    if k == 0 {
      assert Below(ids, 0) == {};
    } else {
      SeededUpTo(n, sources, k - 1);
      var w := Weight(sources);
      var c := |Below(ids, k - 1)|;
      if k - 1 in sources {
        assert Below(ids, k) == Below(ids, k - 1) + {k - 1};
        assert k - 1 !in Below(ids, k - 1);
        assert (c as real) * w + w == ((c + 1) as real) * w;
      } else {
        assert Below(ids, k) == Below(ids, k - 1);
      }
    }
  }

  lemma {:induction false} DistinctCard(s: seq<nat>)
    requires Distinct(s)
    ensures |IdSet(s)| == |s|
  {
    if s != [] {
      var init := s[..|s| - 1];
      assert Distinct(init);
      DistinctCard(init);
      assert IdSet(s) == IdSet(init) + {s[|s| - 1]} by {
        assert s == init + [s[|s| - 1]];
      }
      assert s[|s| - 1] !in IdSet(init);
    }
  }

  /** Distinct sources that are all inside the vector give it total weight 1. */
  lemma SeedTotal(n: nat, sources: seq<nat>)
    requires |sources| > 0 && Distinct(sources) && forall s :: s in sources ==> s < n
    ensures TotalUpTo(Seeded(n, sources), n) == 1.0
  {
    SeededUpTo(n, sources, n);
    assert Below(IdSet(sources), n) == IdSet(sources);
    DistinctCard(sources);
    var m := |sources| as real;
    assert m * (1.0 / m) == 1.0;
  }

  // ---- scores stay non-negative ----

  lemma {:induction false} FewerThan(ids: set<nat>, n: nat)
    requires forall x :: x in ids ==> x < n
    ensures |ids| <= n
  {
    if n > 0 {
      var rest := ids - {n - 1};
      FewerThan(rest, n - 1);
    } else {
      assert ids == {};
    }
  }

  /** Distinct sources inside the vector that leave out some key number fewer than `n`. */
  lemma SourcesFewer(sources: seq<nat>, n: nat, k: nat)
    requires Distinct(sources) && (forall s :: s in sources ==> s < n) && k < n && k !in sources
    ensures |sources| < n
  {
    DistinctCard(sources);
    FewerThan(IdSet(sources) + {k}, n);
  }

  /** The teleport and dangling part, `(1-alpha)/n + alpha*dangling_sum/n`, is non-negative. */
  lemma BaseNonNegative(alpha: real, n: nat, dsum: real)
    requires 0.0 <= alpha <= 1.0 && dsum >= 0.0 && n > 0
    ensures Base(alpha, n, dsum) >= 0.0
  {
    ProductNonNegative(alpha, dsum);
    var c := (1.0 - alpha) + alpha * dsum;
    assert Base(alpha, n, dsum) == c / (n as real);
  }

  /** Each of the three shares is non-negative; the ordinary one because `n > m` whenever it is reached. */
  lemma CategoryNonNegative(g: Graph, sources: seq<nat>, alpha: real, n: nat, dsum: real, v: nat)
    requires 0.0 <= alpha <= 1.0 && dsum >= 0.0
    requires |sources| > 0 && Distinct(sources) && forall s :: s in sources ==> s < n
    requires v in g && v < n && (Ordinary(g, sources, v) ==> n != |sources|)
    ensures CategoryTerm(g, sources, alpha, n, dsum, Weight(sources), Seeded(n, sources)[v], v) >= 0.0
  {
    var p := Seeded(n, sources)[v];
    ProductNonNegative(alpha, dsum);
    var c := (1.0 - alpha) + alpha * dsum;
    var m := |sources|;
    if v in sources {
      SourceShare(g, sources, alpha, n, dsum, v);
    } else if IsDangling(g, v) {
      DanglingShare(g, sources, alpha, n, dsum, p, v);
    } else {
      SourcesFewer(sources, n, v);
      OrdinaryShare(g, sources, alpha, n, dsum, p, v);
      assert (m * (n - m)) as real > 0.0;
    }
  }

  /** Under `0 <= alpha <= 1` with distinct in-range sources, every new score of a non-negative snapshot is non-negative. */
  lemma NewScoreNonNegative(g: Graph, sources: seq<nat>, alpha: real, prev: seq<real>, v: nat)
    requires 0.0 <= alpha <= 1.0 && NonNegative(prev)
    requires |sources| > 0 && Distinct(sources) && forall s :: s in sources ==> s < |prev|
    requires v in g && v < |prev| && (Ordinary(g, sources, v) ==> |prev| != |sources|)
    ensures NewScore(g, sources, alpha, prev, v) >= 0.0
  {
    var n := |prev|;
    var dsum := DanglingSum(g, prev);
    var p := Seeded(n, sources)[v];
    DanglingUpToNonNegative(g, prev, n);
    BaseNonNegative(alpha, n, dsum);
    LinkSumNonNegative(g, alpha, prev, g[v]);
    CategoryNonNegative(g, sources, alpha, n, dsum, v);
    assert p >= 0.0;
    CorrectionBounds(g, sources, alpha, p, v);
  }

  lemma RoundNonNegative(g: Graph, sources: seq<nat>, alpha: real, prev: seq<real>)
    requires 0.0 <= alpha <= 1.0 && NonNegative(prev) && Fits(g, |prev|) && Admissible(g, sources, |prev|)
    requires |sources| > 0 && Distinct(sources) && forall s :: s in sources ==> s < |prev|
    ensures NonNegative(Round(g, sources, alpha, prev))
  {
    var next := Round(g, sources, alpha, prev);
    forall i | 0 <= i < |next|
      ensures next[i] >= 0.0
    {
      RoundAt(g, sources, alpha, prev, i);
      if i in g {
        NewScoreNonNegative(g, sources, alpha, prev, i);
      }
    }
  }

  lemma {:induction false} RunFromNonNegative(g: Graph, sources: seq<nat>, alpha: real, maxIterations: int, tolerance: real,
                                              round: nat, cur: seq<real>)
    requires 0.0 <= alpha <= 1.0 && NonNegative(cur) && Fits(g, |cur|)
    requires |sources| > 0 && Distinct(sources) && forall s :: s in sources ==> s < |cur|
    requires round < maxIterations ==> Admissible(g, sources, |cur|)
    ensures NonNegative(RunFrom(g, sources, alpha, maxIterations, tolerance, round, cur).0)
    decreases maxIterations - round
  {
    if round < maxIterations {
      var next := Round(g, sources, alpha, cur);
      RoundNonNegative(g, sources, alpha, cur);
      if Norm(next, cur) >= tolerance {
        RunFromNonNegative(g, sources, alpha, maxIterations, tolerance, round + 1, next);
      }
    }
  }

  /** With `0 <= alpha <= 1` and no source listed twice, every returned score is non-negative. */
  lemma ScoresNonNegative(g: Graph, sources: seq<nat>, alpha: real, maxIterations: int, tolerance: real)
    requires Outcome(g, sources, alpha, maxIterations, tolerance).Ok?
    requires 0.0 <= alpha <= 1.0 && Distinct(sources)
    ensures NonNegative(Outcome(g, sources, alpha, maxIterations, tolerance).value)
  {
    OutcomeOk(g, sources, alpha, maxIterations, tolerance);
    var seed := Seeded(Size(g), sources);
    assert NonNegative(seed);
    RunFromNonNegative(g, sources, alpha, maxIterations, tolerance, 0, seed);
  }
}
