/**
 * The personalised PageRank iteration as functions over exact `real` scores:
 * the seeded vector, one Jacobi round computed from a snapshot, the L1
 * change between rounds and the stopping rule.  `PageRank.Solve` is proved
 * to compute `Outcome`.
 */
module PageRankModel {
  import opened Wrappers

  /** Successor lists by node id, duplicates kept. */
  type Graph = map<nat, seq<nat>>

  /** The exceptions `pagerank` can raise. */
  datatype Failure =
    | EmptyGraph        // max() over no keys
    | NoSources         // weight = 1/m with m == 0
    | SourceOutOfRange  // personalisation[source] with source >= n
    | NoOrdinaryShare   // weight/(n-m) with n == m, at a key that is neither source nor dangling

  /** The largest element of a non-empty set. */
  ghost function MaxOf(s: set<nat>): (k: nat)
    requires s != {}
    ensures k in s && forall j :: j in s ==> j <= k
  {
    var x :| x in s;
    assert forall j :: j in s ==> j == x || j in s - {x};
    if s == {x} then x
    else
      var rest := MaxOf(s - {x});
      if x < rest then rest else x
  }

  /** `n = max(key) + 1`, the length of the score vector. */
  ghost function Size(g: Graph): (n: nat)
    requires g != map[]
    ensures n - 1 in g && forall k :: k in g ==> k < n
  {
    MaxOf(g.Keys) + 1
  }

  /** Every key is an index of a vector of length `n`. */
  ghost predicate Fits(g: Graph, n: nat) {
    forall k :: k in g ==> k < n
  }

  function Weight(sources: seq<nat>): real
    requires |sources| > 0
  {
    1.0 / (|sources| as real)
  }

  /** The personalisation vector, which is also the score vector before the first round. */
  function Seeded(n: nat, sources: seq<nat>): (v: seq<real>)
    requires |sources| > 0
  {
    seq(n, i requires 0 <= i < n => if i in sources then Weight(sources) else 0.0)
  }

  predicate IsDangling(g: Graph, k: nat) {
    k in g && g[k] == []
  }

  /** A key that is neither a source nor dangling: it takes the `weight/(n-m)` share. */
  predicate Ordinary(g: Graph, sources: seq<nat>, k: nat) {
    k in g && k !in sources && g[k] != []
  }

  /** The shares are defined: `n - m` is only a divisor when some key is ordinary. */
  ghost predicate Admissible(g: Graph, sources: seq<nat>, n: nat) {
    forall k :: Ordinary(g, sources, k) ==> n != |sources|
  }

  /** Sum of `prev[i]` over the dangling keys `i < k`. */
  function DanglingUpTo(g: Graph, prev: seq<real>, k: nat): real
    requires k <= |prev|
  {
    if k == 0 then 0.0
    else DanglingUpTo(g, prev, k - 1) + if IsDangling(g, k - 1) then prev[k - 1] else 0.0
  }

  /** `previous_dangling_sum`: the previous scores of the dangling keys, added up. */
  function DanglingSum(g: Graph, prev: seq<real>): real
  {
    DanglingUpTo(g, prev, |prev|)
  }

  /** Teleport plus the dangling mass spread evenly over `n` positions. */
  function Base(alpha: real, n: nat, dsum: real): real
    requires n > 0
  {
    (1.0 - alpha) / (n as real) + alpha * dsum / (n as real)
  }

  /** A successor that contributes: a key inside the vector with a non-empty list. */
  predicate Live(g: Graph, n: nat, u: nat) {
    u < n && u in g && g[u] != []
  }

  /** What one occurrence of successor `u` adds; nothing when `u` is not live. */
  function LinkTerm(g: Graph, alpha: real, prev: seq<real>, u: nat): real
  {
    if Live(g, |prev|, u) then alpha * prev[u] / (|g[u]| as real) else 0.0
  }

  /** The link terms of a successor list, one per occurrence, in list order. */
  function LinkSum(g: Graph, alpha: real, prev: seq<real>, succ: seq<nat>): real
  {
    if succ == [] then 0.0
    else LinkSum(g, alpha, prev, succ[..|succ| - 1]) + LinkTerm(g, alpha, prev, succ[|succ| - 1])
  }

  /** How many entries of `succ` are source ids, counted once per entry of `sources`. */
  function Hits(succ: seq<nat>, sources: seq<nat>): nat
  {
    if sources == [] then 0
    else Hits(succ, sources[..|sources| - 1]) + multiset(succ)[sources[|sources| - 1]]
  }

  /**
   * The category term: source first, then dangling, then ordinary.  `weight`
   * is `1/m` and `p` the key's personalisation entry.
   */
  function CategoryTerm(g: Graph, sources: seq<nat>, alpha: real, n: nat, dsum: real, weight: real, p: real, v: nat): real
    requires v in g && |sources| > 0
    requires Ordinary(g, sources, v) ==> n != |sources|
  {
    var m := |sources| as real;
    if v in sources then (1.0 - alpha) * p + alpha * dsum * p
    else if IsDangling(g, v) then (1.0 - alpha) * weight / m + alpha * dsum * weight / m
    else (1.0 - alpha) * weight / ((n - |sources|) as real) + alpha * dsum * weight / ((n - |sources|) as real)
  }

  /** The source-link correction for personalisation entry `p`; the `or 1` keeps an empty list from dividing by zero. */
  function Correction(g: Graph, sources: seq<nat>, alpha: real, p: real, v: nat): real
    requires v in g && |sources| > 0
  {
    var succ := g[v];
    var len := if |succ| == 0 then 1 else |succ|;
    alpha * p * (1.0 - (Hits(succ, sources) as real) / (len as real)) / (|sources| as real)
  }

  /** The score a key gets in a round whose snapshot is `prev`. */
  function NewScore(g: Graph, sources: seq<nat>, alpha: real, prev: seq<real>, v: nat): real
    requires v in g && v < |prev| && |sources| > 0
    requires Ordinary(g, sources, v) ==> |prev| != |sources|
  {
    var n := |prev|;
    var dsum := DanglingSum(g, prev);
    var p := Seeded(n, sources)[v];
    var base := if g[v] != [] then Base(alpha, n, dsum) + LinkSum(g, alpha, prev, g[v]) else Base(alpha, n, dsum);
    base + CategoryTerm(g, sources, alpha, n, dsum, Weight(sources), p, v) + Correction(g, sources, alpha, p, v)
  }

  /** The first `k` entries of one round: keys rescored from the snapshot, other positions copied. */
  ghost function RoundUpTo(g: Graph, sources: seq<nat>, alpha: real, prev: seq<real>, k: nat): (next: seq<real>)
    requires k <= |prev| && Fits(g, |prev|) && |sources| > 0 && Admissible(g, sources, |prev|)
    ensures |next| == k
  {
    if k == 0 then []
    else
      RoundUpTo(g, sources, alpha, prev, k - 1)
      + [if k - 1 in g then NewScore(g, sources, alpha, prev, k - 1) else prev[k - 1]]
  }

  /** One round: every key rescored from the snapshot, every other position left as it was. */
  ghost function Round(g: Graph, sources: seq<nat>, alpha: real, prev: seq<real>): (next: seq<real>)
    requires Fits(g, |prev|) && |sources| > 0 && Admissible(g, sources, |prev|)
    ensures |next| == |prev|
  {
    RoundUpTo(g, sources, alpha, prev, |prev|)
  }

  lemma {:induction false} RoundUpToAt(g: Graph, sources: seq<nat>, alpha: real, prev: seq<real>, k: nat, i: nat)
    requires k <= |prev| && Fits(g, |prev|) && |sources| > 0 && Admissible(g, sources, |prev|) && i < k
    ensures RoundUpTo(g, sources, alpha, prev, k)[i] == if i in g then NewScore(g, sources, alpha, prev, i) else prev[i]
  {
    if i < k - 1 {
      RoundUpToAt(g, sources, alpha, prev, k - 1, i);
    }
  }

  /** Entry `i` after a round: the new score of a key, the snapshot's value elsewhere. */
  lemma RoundAt(g: Graph, sources: seq<nat>, alpha: real, prev: seq<real>, i: nat)
    requires Fits(g, |prev|) && |sources| > 0 && Admissible(g, sources, |prev|) && i < |prev|
    ensures Round(g, sources, alpha, prev)[i] == if i in g then NewScore(g, sources, alpha, prev, i) else prev[i]
  {
    RoundUpToAt(g, sources, alpha, prev, |prev|, i);
  }

  function Abs(x: real): real {
    if x < 0.0 then -x else x
  }

  /** The L1 distance between the first `k` entries of `a` and `b`. */
  function NormUpTo(a: seq<real>, b: seq<real>, k: nat): (d: real)
    requires k <= |a| == |b|
    ensures d >= 0.0
    ensures d == 0.0 <==> a[..k] == b[..k]
  {
    if k == 0 then 0.0
    else
      var rest := NormUpTo(a, b, k - 1);
      assert a[..k] == a[..k - 1] + [a[k - 1]] && b[..k] == b[..k - 1] + [b[k - 1]];
      rest + Abs(a[k - 1] - b[k - 1])
  }

  /** The L1 change between two score vectors. */
  function Norm(a: seq<real>, b: seq<real>): (d: real)
    requires |a| == |b|
    ensures d >= 0.0
  {
    NormUpTo(a, b, |a|)
  }

  /** The L1 change is zero exactly when nothing changed. */
  lemma NormZero(a: seq<real>, b: seq<real>)
    requires |a| == |b|
    ensures Norm(a, b) == 0.0 <==> a == b
  {
    assert a[..|a|] == a && b[..|b|] == b;
  }

  /**
   * The loop from round `round` on with current vector `cur`: the final vector
   * and the number of rounds run in all.
   */
  ghost function RunFrom(g: Graph, sources: seq<nat>, alpha: real, maxIterations: int, tolerance: real,
                         round: nat, cur: seq<real>): (r: (seq<real>, nat))
    requires Fits(g, |cur|) && |sources| > 0
    requires round < maxIterations ==> Admissible(g, sources, |cur|)
    ensures |r.0| == |cur|
    ensures round <= r.1 && (r.1 <= maxIterations || r.1 == round)
    ensures round < maxIterations ==> round < r.1
    decreases maxIterations - round
  {
    if round >= maxIterations then (cur, round)
    else
      var next := Round(g, sources, alpha, cur);
      if Norm(next, cur) < tolerance then (next, round + 1)
      else RunFrom(g, sources, alpha, maxIterations, tolerance, round + 1, next)
  }

  /** What `pagerank(graph, sources, alpha, maximum_iterations, tolerance)` returns or raises. */
  ghost function Outcome(g: Graph, sources: seq<nat>, alpha: real, maxIterations: int, tolerance: real): (r: Result<seq<real>, Failure>)
    ensures r.Ok? ==> g != map[] && |r.value| == Size(g)
  {
    if g == map[] then Err(EmptyGraph)
    else if |sources| == 0 then Err(NoSources)
    else
      var n := Size(g);
      if exists s :: s in sources && s >= n then Err(SourceOutOfRange)
      else if maxIterations >= 1 && !Admissible(g, sources, n) then Err(NoOrdinaryShare)
      else Ok(RunFrom(g, sources, alpha, maxIterations, tolerance, 0, Seeded(n, sources)).0)
  }
}
