/**
 * `pagerank(graph, sources, alpha, maximum_iterations, tolerance)`: the
 * personalised PageRank loop over two arrays updated in place.  Keys are
 * visited in an arbitrary order each round, so the result is shown to be the
 * same whichever order the dictionary yields them in.
 */
module PageRank {
  import opened Wrappers
  import opened PageRankModel

  /** The largest key of the graph, found by a scan over the keys. */
  method LargestKey(graph: Graph) returns (k: nat)
    requires graph != map[]
    ensures k in graph && forall j :: j in graph ==> j <= k
  {
    var keys := graph.Keys;
    k :| k in keys;
    keys := keys - {k};
    while keys != {}
      invariant keys <= graph.Keys
      invariant k in graph
      invariant forall j :: j in graph && j !in keys ==> j <= k
      decreases keys
    {
      var j :| j in keys;
      if j > k {
        k := j;
      }
      keys := keys - {j};
    }
  }

  /** Adds each successor's damped snapshot score shared over its own out-degree, skipping the successors whose lookup raises. */
  method AddLinks(pagerank: array<real>, graph: Graph, alpha: real, previous: seq<real>, node: nat)
    requires node < pagerank.Length == |previous| && node in graph
    modifies pagerank
    ensures pagerank[node] == old(pagerank[node]) + LinkSum(graph, alpha, previous, graph[node])
    ensures forall v :: 0 <= v < pagerank.Length && v != node ==> pagerank[v] == old(pagerank[v])
  {
    var n := pagerank.Length;
    var succ := graph[node];
    var j := 0;
    while j < |succ|
      invariant 0 <= j <= |succ|
      invariant pagerank[node] == old(pagerank[node]) + LinkSum(graph, alpha, previous, succ[..j])
      invariant forall v :: 0 <= v < n && v != node ==> pagerank[v] == old(pagerank[v])
    {
      var neighbour := succ[j];
      assert succ[..j + 1][..j] == succ[..j];
      if neighbour < n && neighbour in graph && graph[neighbour] != [] {
        pagerank[node] := pagerank[node] + alpha * previous[neighbour] / (|graph[neighbour]| as real);
      }
      j := j + 1;
    }
    assert succ[..|succ|] == succ;
  }

  /** Adds the category share: the source share for a source, else the dangling share for a key with an empty list, else the ordinary share. */
  method AddCategory(pagerank: array<real>, personalisation: array<real>, graph: Graph, sources: seq<nat>,
                     alpha: real, dsum: real, dangling: set<nat>, weight: real, node: nat)
    returns (ok: bool)
    requires pagerank != personalisation && pagerank.Length == personalisation.Length
    requires node in graph && node < pagerank.Length && |sources| > 0
    requires node in dangling <==> graph[node] == []
    modifies pagerank
    ensures ok <==> !(Ordinary(graph, sources, node) && pagerank.Length == |sources|)
    ensures ok ==> pagerank[node] == old(pagerank[node]) + CategoryTerm(graph, sources, alpha, pagerank.Length, dsum, weight, personalisation[node], node)
    ensures forall v :: 0 <= v < pagerank.Length && v != node ==> pagerank[v] == old(pagerank[v])
  {
    var n, m := pagerank.Length, |sources|;
    ghost var p := personalisation[node];
    ghost var t1, t2: real;
    if node in sources {
      t1, t2 := (1.0 - alpha) * p, alpha * dsum * p;
      pagerank[node] := pagerank[node] + (1.0 - alpha) * personalisation[node];
      pagerank[node] := pagerank[node] + alpha * dsum * personalisation[node];
    } else if node in dangling {
      t1, t2 := (1.0 - alpha) * weight / (m as real), alpha * dsum * weight / (m as real);
      pagerank[node] := pagerank[node] + (1.0 - alpha) * weight / (m as real);
      pagerank[node] := pagerank[node] + alpha * dsum * weight / (m as real);
    } else {
      if n == m {
        return false;
      }
      t1, t2 := (1.0 - alpha) * weight / ((n - m) as real), alpha * dsum * weight / ((n - m) as real);
      pagerank[node] := pagerank[node] + (1.0 - alpha) * weight / ((n - m) as real);
      pagerank[node] := pagerank[node] + alpha * dsum * weight / ((n - m) as real);
    }
    assert CategoryTerm(graph, sources, alpha, n, dsum, weight, p, node) == t1 + t2;
    return true;
  }

  /** Adds the source-link correction: the damped personalisation share, less the fraction of the node's list that points at sources. */
  method AddCorrection(pagerank: array<real>, personalisation: array<real>, graph: Graph, sources: seq<nat>,
                       alpha: real, node: nat)
    requires pagerank != personalisation && pagerank.Length == personalisation.Length
    requires node in graph && node < pagerank.Length && |sources| > 0
    modifies pagerank
    ensures pagerank[node] == old(pagerank[node]) + Correction(graph, sources, alpha, personalisation[node], node)
    ensures forall v :: 0 <= v < pagerank.Length && v != node ==> pagerank[v] == old(pagerank[v])
  {
    var succ := graph[node];
    var m := |sources|;
    var hits := Hits(succ, sources);
    var len := if |succ| == 0 then 1 else |succ|;
    ghost var h, l, mr := hits as real, len as real, m as real;
    assert Correction(graph, sources, alpha, personalisation[node], node) == alpha * personalisation[node] * (1.0 - h / l) / mr;
    pagerank[node] := pagerank[node] + alpha * personalisation[node] * (1.0 - (hits as real) / (len as real)) / (m as real);
  }

  /**
   * The body of `for node in graph`: rescore one key from the snapshot.
   * Fails exactly when the key takes the `weight/(n-m)` share and `n == m`.
   */
  method ScoreNode(pagerank: array<real>, personalisation: array<real>, graph: Graph, sources: seq<nat>,
                   alpha: real, previous: seq<real>, dsum: real, dangling: set<nat>, weight: real, node: nat)
    returns (ok: bool)
    requires pagerank != personalisation
    requires pagerank.Length == personalisation.Length == |previous|
    requires node in graph && Fits(graph, |previous|) && |sources| > 0
    requires weight == Weight(sources) && dsum == DanglingSum(graph, previous)
    requires node in dangling <==> graph[node] == []
    requires personalisation[..] == Seeded(|previous|, sources)
    modifies pagerank
    ensures ok <==> !(Ordinary(graph, sources, node) && |previous| == |sources|)
    ensures ok ==> pagerank[node] == NewScore(graph, sources, alpha, previous, node)
    ensures forall v :: 0 <= v < pagerank.Length && v != node ==> pagerank[v] == old(pagerank[v])
  {
    var n := pagerank.Length;
    var succ := graph[node];
    ghost var p := personalisation[node];
    assert p == Seeded(n, sources)[node];
    if succ != [] {
      pagerank[node] := (1.0 - alpha) / (n as real);
      pagerank[node] := pagerank[node] + alpha * dsum / (n as real);
      assert pagerank[node] == Base(alpha, n, dsum);
      AddLinks(pagerank, graph, alpha, previous, node);
      assert pagerank[node] == Base(alpha, n, dsum) + LinkSum(graph, alpha, previous, succ);
    } else {
      pagerank[node] := (1.0 - alpha) / (n as real) + alpha * dsum / (n as real);
      assert pagerank[node] == Base(alpha, n, dsum);
    }
    ghost var base := pagerank[node];
    assert base == if succ != [] then Base(alpha, n, dsum) + LinkSum(graph, alpha, previous, succ) else Base(alpha, n, dsum);
    ok := AddCategory(pagerank, personalisation, graph, sources, alpha, dsum, dangling, weight, node);
    if !ok {
      return;
    }
    ghost var cat := CategoryTerm(graph, sources, alpha, n, dsum, weight, p, node);
    assert pagerank[node] == base + cat;
    AddCorrection(pagerank, personalisation, graph, sources, alpha, node);
    assert pagerank[node] == base + cat + Correction(graph, sources, alpha, p, node);
  }

  /** Gives every source the weight `1/m` in both vectors, failing on a source index past the end. */
  method SeedSources(pagerank: array<real>, personalisation: array<real>, sources: seq<nat>) returns (ok: bool)
    requires pagerank != personalisation && pagerank.Length == personalisation.Length && |sources| > 0
    requires forall v :: 0 <= v < pagerank.Length ==> pagerank[v] == 0.0 && personalisation[v] == 0.0
    modifies pagerank, personalisation
    ensures ok <==> forall s :: s in sources ==> s < pagerank.Length
    ensures ok ==> pagerank[..] == Seeded(pagerank.Length, sources) && personalisation[..] == Seeded(pagerank.Length, sources)
  {
    var n, m := pagerank.Length, |sources|;
    var weight := 1.0 / (m as real);
    var i := 0;
    while i < m
      invariant 0 <= i <= m
      invariant forall j :: 0 <= j < i ==> sources[j] < n
      invariant forall v :: 0 <= v < n ==> pagerank[v] == (if v in sources[..i] then weight else 0.0)
      invariant forall v :: 0 <= v < n ==> personalisation[v] == (if v in sources[..i] then weight else 0.0)
    {
      var source := sources[i];
      if source >= n {
        assert source in sources;
        return false;
      }
      assert forall v :: v in sources[..i + 1] <==> v in sources[..i] || v == source;
      personalisation[source] := weight;
      pagerank[source] := weight;
      i := i + 1;
    }
    assert sources[..m] == sources;
    return true;
  }

  /**
   * One pass of `for node in graph` over a snapshot of the scores.  It fails
   * exactly when some key would take the `weight/(n-m)` share with `n == m`.
   */
  method RunRound(pagerank: array<real>, personalisation: array<real>, graph: Graph, sources: seq<nat>,
                  alpha: real, weight: real)
    returns (ok: bool)
    requires pagerank != personalisation && pagerank.Length == personalisation.Length
    requires Fits(graph, pagerank.Length) && |sources| > 0 && weight == Weight(sources)
    requires personalisation[..] == Seeded(pagerank.Length, sources)
    modifies pagerank
    ensures ok <==> Admissible(graph, sources, pagerank.Length)
    ensures ok ==> pagerank[..] == Round(graph, sources, alpha, old(pagerank[..]))
  {
    var n, m := pagerank.Length, |sources|;
    var previous := pagerank[..];
    var dangling := set k | k in graph && graph[k] == [];
    var dsum := DanglingSum(graph, previous);

    var todo := graph.Keys;
    while todo != {}
      invariant todo <= graph.Keys
      invariant n == m ==> forall v :: v in graph && v !in todo ==> !Ordinary(graph, sources, v)
      invariant forall v :: 0 <= v < n ==>
                  pagerank[v] == if v in graph && v !in todo then NewScore(graph, sources, alpha, previous, v) else previous[v]
      decreases todo
    {
      var node :| node in todo;
      ok := ScoreNode(pagerank, personalisation, graph, sources, alpha, previous, dsum, dangling, weight, node);
      if !ok {
        return;
      }
      todo := todo - {node};
    }
    assert Admissible(graph, sources, n);
    forall i | 0 <= i < n
      ensures pagerank[i] == Round(graph, sources, alpha, previous)[i]
    {
      RoundAt(graph, sources, alpha, previous, i);
    }
    assert pagerank[..] == Round(graph, sources, alpha, previous);
    return true;
  }

  /**
   * `for _ in range(maximum_iterations)` from the seeded vectors: rounds until
   * the L1 change drops below `tolerance` or the rounds run out.
   */
  method Iterate(pagerank: array<real>, personalisation: array<real>, graph: Graph, sources: seq<nat>,
                 alpha: real, weight: real, maximumIterations: int, tolerance: real)
    returns (r: Result<seq<real>, Failure>)
    requires pagerank != personalisation && pagerank.Length == personalisation.Length
    requires Fits(graph, pagerank.Length) && |sources| > 0 && weight == Weight(sources)
    requires personalisation[..] == Seeded(pagerank.Length, sources) && pagerank[..] == personalisation[..]
    modifies pagerank
    ensures maximumIterations >= 1 && !Admissible(graph, sources, pagerank.Length) ==> r == Err(NoOrdinaryShare)
    ensures maximumIterations < 1 || Admissible(graph, sources, pagerank.Length) ==>
      r == Ok(RunFrom(graph, sources, alpha, maximumIterations, tolerance, 0, Seeded(pagerank.Length, sources)).0)
  {
    var n := pagerank.Length;
    ghost var seed := Seeded(n, sources);
    var round := 0;
    while round < maximumIterations
      invariant round == 0 ==> pagerank[..] == seed
      invariant round > 0 ==> Admissible(graph, sources, n)
      invariant round > 0 ==>
        RunFrom(graph, sources, alpha, maximumIterations, tolerance, 0, seed) ==
        RunFrom(graph, sources, alpha, maximumIterations, tolerance, round, pagerank[..])
      invariant personalisation[..] == seed
    {
      var previous := pagerank[..];
      var ok := RunRound(pagerank, personalisation, graph, sources, alpha, weight);
      if !ok {
        return Err(NoOrdinaryShare);
      }
      var norm := Norm(pagerank[..], previous);
      if norm < tolerance {
        assert RunFrom(graph, sources, alpha, maximumIterations, tolerance, 0, seed).0 == pagerank[..];
        break;
      }
      round := round + 1;
    }
    return Ok(pagerank[..]);
  }

  /** `pagerank(graph, sources, alpha, maximum_iterations, tolerance)`, with each exception it can raise as an `Err`. */
  method Solve(graph: Graph, sources: seq<nat>, alpha: real, maximumIterations: int, tolerance: real)
    returns (r: Result<seq<real>, Failure>)
    ensures r == Outcome(graph, sources, alpha, maximumIterations, tolerance)
  {
    if graph == map[] {
      return Err(EmptyGraph);
    }
    var top := LargestKey(graph);
    var n := top + 1;
    assert n == Size(graph);
    var m := |sources|;
    var pagerank := new real[n](_ => 0.0);
    var personalisation := new real[n](_ => 0.0);
    if m == 0 {
      return Err(NoSources);
    }
    var weight := 1.0 / (m as real);
    var seeded := SeedSources(pagerank, personalisation, sources);
    if !seeded {
      return Err(SourceOutOfRange);
    }
    r := Iterate(pagerank, personalisation, graph, sources, alpha, weight, maximumIterations, tolerance);
  }
}
