/**
 * How one score is made up: the dangling sum, the link term with its skip
 * rule, the category shares in priority order and the source-link
 * correction, and the bounds that keep every score non-negative.
 */
module PageRankTerms {
  import opened PageRankModel

  /** No source id listed twice. */
  predicate Distinct(s: seq<nat>) {
    forall i, j :: 0 <= i < j < |s| ==> s[i] != s[j]
  }

  /** The ids a list mentions. */
  function IdSet(s: seq<nat>): set<nat> {
    set x | x in s
  }

  predicate NonNegative(v: seq<real>) {
    forall i :: 0 <= i < |v| ==> v[i] >= 0.0
  }

  lemma ProductNonNegative(x: real, y: real)
    requires x >= 0.0 && y >= 0.0
    ensures x * y >= 0.0
  {
  }

  // ---- the dangling sum ----

  /** Only the previous scores of dangling keys enter the dangling sum. */
  lemma {:induction false} DanglingUpToFrame(g: Graph, a: seq<real>, b: seq<real>, k: nat)
    requires k <= |a| == |b|
    requires forall i :: 0 <= i < |a| && IsDangling(g, i) ==> a[i] == b[i]
    ensures DanglingUpTo(g, a, k) == DanglingUpTo(g, b, k)
  {
    if k > 0 {
      DanglingUpToFrame(g, a, b, k - 1);
    }
  }

  lemma {:induction false} DanglingUpToNonNegative(g: Graph, prev: seq<real>, k: nat)
    requires k <= |prev| && NonNegative(prev)
    ensures DanglingUpTo(g, prev, k) >= 0.0
  {
    if k > 0 {
      DanglingUpToNonNegative(g, prev, k - 1);
    }
  }

  /** With no dangling key the sum is zero. */
  lemma {:induction false} DanglingUpToNone(g: Graph, prev: seq<real>, k: nat)
    requires k <= |prev| && forall i :: 0 <= i < k ==> !IsDangling(g, i)
    ensures DanglingUpTo(g, prev, k) == 0.0
  {
    if k > 0 {
      DanglingUpToNone(g, prev, k - 1);
    }
  }

  // ---- the link term ----

  /** Link terms add up over a split list, one term per occurrence, so a repeated successor counts again. */
  lemma {:induction false} LinkSumAppend(g: Graph, alpha: real, prev: seq<real>, a: seq<nat>, b: seq<nat>)
    ensures LinkSum(g, alpha, prev, a + b) == LinkSum(g, alpha, prev, a) + LinkSum(g, alpha, prev, b)
    decreases |b|
  {
    if b == [] {
      assert a + b == a;
    } else {
      var c := b[..|b| - 1];
      assert (a + b)[..|a + b| - 1] == a + c;
      assert (a + b)[|a + b| - 1] == b[|b| - 1];
      LinkSumAppend(g, alpha, prev, a, c);
    }
  }

  /** A successor listed twice contributes twice. */
  lemma Duplicate(g: Graph, alpha: real, prev: seq<real>, succ: seq<nat>, u: nat)
    ensures LinkSum(g, alpha, prev, succ + [u, u]) == LinkSum(g, alpha, prev, succ) + 2.0 * LinkTerm(g, alpha, prev, u)
  {
    LinkSumAppend(g, alpha, prev, succ, [u, u]);
    assert [u, u][..1] == [u];
    assert [u][..0] == [];
    assert LinkSum(g, alpha, prev, [u]) == LinkTerm(g, alpha, prev, u);
    assert LinkSum(g, alpha, prev, [u, u]) == LinkSum(g, alpha, prev, [u]) + LinkTerm(g, alpha, prev, u);
  }

  /** A list whose successors are all skipped (not a key, empty list, or past the end) adds nothing. */
  lemma {:induction false} LinkSumSkipped(g: Graph, alpha: real, prev: seq<real>, succ: seq<nat>)
    requires forall i :: 0 <= i < |succ| ==> !Live(g, |prev|, succ[i])
    ensures LinkSum(g, alpha, prev, succ) == 0.0
  {
    if succ != [] {
      LinkSumSkipped(g, alpha, prev, succ[..|succ| - 1]);
    }
  }

  lemma {:induction false} LinkSumNonNegative(g: Graph, alpha: real, prev: seq<real>, succ: seq<nat>)
    requires alpha >= 0.0 && NonNegative(prev)
    ensures LinkSum(g, alpha, prev, succ) >= 0.0
  {
    if succ != [] {
      LinkSumNonNegative(g, alpha, prev, succ[..|succ| - 1]);
      var u := succ[|succ| - 1];
      if Live(g, |prev|, u) {
        assert alpha * prev[u] >= 0.0;
      }
    }
  }

  // ---- the category shares ----

  /** A source takes `(1-alpha)/m + alpha*dangling_sum/m`, whether or not it is also dangling. */
  lemma SourceShare(g: Graph, sources: seq<nat>, alpha: real, n: nat, dsum: real, v: nat)
    requires v in g && v < n && v in sources
    ensures CategoryTerm(g, sources, alpha, n, dsum, Weight(sources), Seeded(n, sources)[v], v)
         == ((1.0 - alpha) + alpha * dsum) / (|sources| as real)
  {
    var w := Weight(sources);
    assert Seeded(n, sources)[v] == w;
    calc {
      (1.0 - alpha) * w + alpha * dsum * w;
      ((1.0 - alpha) + alpha * dsum) * w;
      ((1.0 - alpha) + alpha * dsum) / (|sources| as real);
    }
  }

  /** Two shares of `weight/d` summed: `(a + b) * weight / d`, which is `(a + b)/(m*d)` when `weight` is `1/m`. */
  lemma SharesOver(a: real, b: real, m: real, d: real)
    requires m != 0.0 && d != 0.0
    ensures a * (1.0 / m) / d + b * (1.0 / m) / d == (a + b) / (m * d)
  {
    calc {
      a * (1.0 / m) / d + b * (1.0 / m) / d;
      (a + b) * (1.0 / m) / d;
      { assert (1.0 / m) / d == 1.0 / (m * d); }
      (a + b) / (m * d);
    }
  }

  /** A dangling key that is not a source takes `weight/m` twice over: `((1-alpha) + alpha*dangling_sum)/m²`. */
  lemma DanglingShare(g: Graph, sources: seq<nat>, alpha: real, n: nat, dsum: real, p: real, v: nat)
    requires IsDangling(g, v) && v !in sources && |sources| > 0
    ensures CategoryTerm(g, sources, alpha, n, dsum, Weight(sources), p, v)
         == ((1.0 - alpha) + alpha * dsum) / ((|sources| * |sources|) as real)
  {
    var m := |sources| as real;
    SharesOver(1.0 - alpha, alpha * dsum, m, m);
  }

  /** Any other key takes `weight/(n-m)` twice over: `((1-alpha) + alpha*dangling_sum)/(m(n-m))`. */
  lemma OrdinaryShare(g: Graph, sources: seq<nat>, alpha: real, n: nat, dsum: real, p: real, v: nat)
    requires Ordinary(g, sources, v) && n != |sources| && |sources| > 0
    ensures CategoryTerm(g, sources, alpha, n, dsum, Weight(sources), p, v)
         == ((1.0 - alpha) + alpha * dsum) / ((|sources| * (n - |sources|)) as real)
  {
    SharesOver(1.0 - alpha, alpha * dsum, |sources| as real, (n - |sources|) as real);
  }

  // ---- the source-link correction ----

  /** A key that is not a source has personalisation 0, so its correction vanishes. */
  lemma CorrectionNonSource(g: Graph, sources: seq<nat>, alpha: real, n: nat, v: nat)
    requires v in g && v < n && v !in sources && |sources| > 0
    ensures Correction(g, sources, alpha, Seeded(n, sources)[v], v) == 0.0
  {
    assert Seeded(n, sources)[v] == 0.0;
  }

  /** The `or 1`: a key with an empty list gets the whole `alpha*p/m`, with no division by zero. */
  lemma CorrectionEmptyList(g: Graph, sources: seq<nat>, alpha: real, p: real, v: nat)
    requires IsDangling(g, v) && |sources| > 0
    ensures Correction(g, sources, alpha, p, v) == alpha * p / (|sources| as real)
  {
    assert Hits(g[v], sources) == 0 by {
      HitsEmpty(sources);
    }
  }

  lemma {:induction false} HitsEmpty(sources: seq<nat>)
    ensures Hits([], sources) == 0
  {
    if sources != [] {
      HitsEmpty(sources[..|sources| - 1]);
    }
  }

  /** Entries of `succ` whose id is in `ids`. */
  function CountIn(succ: seq<nat>, ids: set<nat>): (c: nat)
    ensures c <= |succ|
  {
    if succ == [] then 0
    else CountIn(succ[..|succ| - 1], ids) + if succ[|succ| - 1] in ids then 1 else 0
  }

  lemma {:induction false} CountInAdd(succ: seq<nat>, ids: set<nat>, s: nat)
    requires s !in ids
    ensures CountIn(succ, ids + {s}) == CountIn(succ, ids) + multiset(succ)[s]
  {
    if succ != [] {
      var init := succ[..|succ| - 1];
      CountInAdd(init, ids, s);
      assert succ == init + [succ[|succ| - 1]];
      assert multiset(succ) == multiset(init) + multiset{succ[|succ| - 1]};
    }
  }

  /** With distinct sources, `hits` counts the entries of the list that are sources. */
  lemma {:induction false} HitsCount(succ: seq<nat>, sources: seq<nat>)
    requires Distinct(sources)
    ensures Hits(succ, sources) == CountIn(succ, IdSet(sources))
  {
    if sources == [] {
      assert IdSet(sources) == {};
      CountInNone(succ);
    } else {
      var init := sources[..|sources| - 1];
      var last := sources[|sources| - 1];
      assert Distinct(init);
      HitsCount(succ, init);
      assert Hits(succ, sources) == Hits(succ, init) + multiset(succ)[last];
      var before := IdSet(init);
      assert IdSet(sources) == before + {last} by {
        assert sources == init + [last];
      }
      assert last !in before;
      CountInAdd(succ, before, last);
    }
  }

  lemma {:induction false} CountInNone(succ: seq<nat>)
    ensures CountIn(succ, {}) == 0
  {
    if succ != [] {
      CountInNone(succ[..|succ| - 1]);
    }
  }

  /** A correction `ap*(1 - h/len)/m` lies between 0 and `ap/m` when `0 <= h <= len`. */
  lemma ScaledShare(c: real, ap: real, h: real, len: real, m: real)
    requires ap >= 0.0 && 0.0 <= h <= len && len > 0.0 && m > 0.0
    requires c == ap * (1.0 - h / len) / m
    ensures 0.0 <= c <= ap / m
  {
    var f := 1.0 - h / len;
    assert h / len <= 1.0 by {
      assert h / len * len == h;
    }
    assert 0.0 <= f <= 1.0;
    assert 0.0 <= ap * f <= ap;
  }

  /** With distinct sources the correction lies between 0 and `alpha*p/m`. */
  lemma CorrectionBounds(g: Graph, sources: seq<nat>, alpha: real, p: real, v: nat)
    requires v in g && |sources| > 0 && Distinct(sources) && alpha >= 0.0 && p >= 0.0
    ensures 0.0 <= Correction(g, sources, alpha, p, v) <= alpha * p / (|sources| as real)
  {
    var succ := g[v];
    var len := if |succ| == 0 then 1 else |succ|;
    var hits := Hits(succ, sources);
    assert hits <= len by {
      HitsCount(succ, sources);
    }
    var h, l, m := hits as real, len as real, |sources| as real;
    var c := Correction(g, sources, alpha, p, v);
    assert c == alpha * p * (1.0 - h / l) / m;
    assert alpha * p >= 0.0;
    ScaledShare(c, alpha * p, h, l, m);
  }
}
