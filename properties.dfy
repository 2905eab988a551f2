/**
 * What the vertex loop of Viterbi achieves, under the corrected guard:
 * each vertex keeps its best incoming edge (the later one among equal
 * totals), the loop succeeds exactly when every edge points down, and
 * without the BLEU term the back pointers describe a derivation of
 * every vertex whose score no other derivation beats.
 */
module SearchProperties {
  import opened Wrappers
  import opened Vocabulary
  import opened Hypergraph
  import opened EdgeStream
  import opened BleuStats
  import opened Contexts
  import opened Search

  // ---------------------------------------------------------------------
  // Scoring an edge does not look at the vertex being scored
  // ---------------------------------------------------------------------

  /** Children before vi have the same scores whatever vi's back pointer is. */
  lemma {:induction false} ChildScoresFrame(children: seq<nat>, bps: seq<BackPointer>, vi: nat, x: BackPointer)
    requires Scored(bps, children) && EarlierThan(children, vi) && vi < |bps|
    ensures Scored(bps[vi := x], children)
    ensures ChildScores(children, bps[vi := x]) == ChildScores(children, bps)
    decreases |children|
  {
    if |children| > 0 {
      ChildScoresFrame(children[..|children| - 1], bps, vi, x);
    }
  }

  /**
   * Under the corrected guard an edge's total does not depend on the
   * back pointer of the vertex being scored, so the loop's replacement
   * of that back pointer is invisible to the later edges.
   */
  lemma EdgeTotalFrame(cfg: Config, edge: Edge, vi: nat, bps: seq<BackPointer>, states: seq<VertexState>, x: BackPointer)
    requires Aligned(edge) && |states| == |bps| && ChildrenIn(edge.children, |bps|) && vi < |bps|
    requires cfg.bleuWeight != 0.0 ==> ChildrenReady(edge.children, vi, states)
    ensures EdgeTotal(cfg, Corrected, edge, vi, bps[vi := x], states) == EdgeTotal(cfg, Corrected, edge, vi, bps, states)
  {
    if EarlierThan(edge.children, vi) {
      if Scored(bps, edge.children) {
        ChildScoresFrame(edge.children, bps, vi, x);
      } else {
        assert !Scored(bps[vi := x], edge.children);
      }
    }
  }

  // ---------------------------------------------------------------------
  // The edge loop keeps the best edge
  // ---------------------------------------------------------------------

  /**
   * The totals of the incoming edges `inc`, each scored against the back
   * pointers as they were before the vertex's visit.
   */
  ghost function Totals(cfg: Config, E: seq<Edge>, inc: seq<nat>, vi: nat, bps: seq<BackPointer>, states: seq<VertexState>)
    : (ts: seq<Result<(real, seq<nat>)>>)
    requires vi < |bps| == |states| && IncomingReady(cfg, Corrected, E, inc, vi, states)
    ensures |ts| == |inc|
    decreases |inc|
  {
    if |inc| == 0 then []
    else
      assert IncomingReady(cfg, Corrected, E, inc[..|inc| - 1], vi, states);
      Totals(cfg, E, inc[..|inc| - 1], vi, bps, states) + [EdgeTotal(cfg, Corrected, E[inc[|inc| - 1]], vi, bps, states)]
  }

  /** The k-th total is the k-th edge's. */
  lemma {:induction false} TotalsAt(cfg: Config, E: seq<Edge>, inc: seq<nat>, vi: nat, bps: seq<BackPointer>, states: seq<VertexState>, k: nat)
    requires vi < |bps| == |states| && IncomingReady(cfg, Corrected, E, inc, vi, states) && k < |inc|
    ensures Totals(cfg, E, inc, vi, bps, states)[k] == EdgeTotal(cfg, Corrected, E[inc[k]], vi, bps, states)
    decreases |inc|
  {
    if k < |inc| - 1 {
      var front := inc[..|inc| - 1];
      assert IncomingReady(cfg, Corrected, E, front, vi, states);
      assert front[k] == inc[k];
      TotalsAt(cfg, E, front, vi, bps, states, k);
    }
  }

  /**
   * The edge loop over known totals `ts` of the edges `inc`, starting from
   * back pointer `init`: a total at least the best so far replaces it,
   * and the first error ends the loop.
   */
  function Best(inc: seq<nat>, ts: seq<Result<(real, seq<nat>)>>, init: BackPointer): Result<(BackPointer, seq<nat>)>
    requires |ts| == |inc|
    decreases |inc|
  {
    if |inc| == 0 then Ok((init, Zeros))
    else
      var n := |inc| - 1;
      var prev := Best(inc[..n], ts[..n], init);
      if prev.Err? then prev
      else if ts[n].Err? then Err(ts[n].error)
      else if AtLeast(Finite(ts[n].value.0), prev.value.0.score) then Ok((BackPointer(Some(inc[n]), Finite(ts[n].value.0)), ts[n].value.1))
      else prev
  }

  /**
   * `p` is edge k with its total and statistics, every edge has a total,
   * none larger than edge k's, and every later one smaller.
   */
  predicate MaxAt(inc: seq<nat>, ts: seq<Result<(real, seq<nat>)>>, k: nat, p: (BackPointer, seq<nat>))
    requires |ts| == |inc|
  {
    && k < |inc| && (forall j :: 0 <= j < |ts| ==> ts[j].Ok?)
    && p == (BackPointer(Some(inc[k]), Finite(ts[k].value.0)), ts[k].value.1)
    && (forall j :: 0 <= j < |ts| ==> ts[j].value.0 <= ts[k].value.0)
    && (forall j :: k < j < |ts| ==> ts[j].value.0 < ts[k].value.0)
  }

  /**
   * From kMinScore the loop succeeds exactly when every edge has a total,
   * and then keeps the last edge of largest total.
   */
  lemma {:induction false} BestIsMax(inc: seq<nat>, ts: seq<Result<(real, seq<nat>)>>, init: BackPointer)
    requires |ts| == |inc| && init.score == MinScore
    ensures Best(inc, ts, init).Ok? <==> forall j :: 0 <= j < |ts| ==> ts[j].Ok?
    ensures Best(inc, ts, init).Ok? && |inc| > 0 ==> exists k: nat :: MaxAt(inc, ts, k, Best(inc, ts, init).value)
    decreases |inc|
  {
    if |inc| > 0 {
      var n := |inc| - 1;
      var front, fts := inc[..n], ts[..n];
      BestIsMax(front, fts, init);
      assert forall j :: 0 <= j < n ==> fts[j] == ts[j];
      var prev := Best(front, fts, init);
      if prev.Ok? && ts[n].Ok? && n > 0 {
        var k: nat :| MaxAt(front, fts, k, prev.value);
        assert k < n;
        if ts[n].value.0 >= ts[k].value.0 {
          assert MaxAt(inc, ts, n, Best(inc, ts, init).value);
        } else {
          assert MaxAt(inc, ts, k, Best(inc, ts, init).value);
        }
      } else if prev.Ok? && ts[n].Ok? {
        assert MaxAt(inc, ts, 0, Best(inc, ts, init).value);
      }
    }
  }

  /** The edge loop of Pick, under the corrected guard, is the loop over the edges' totals before the visit. */
  lemma {:induction false} PickAsBest(cfg: Config, E: seq<Edge>, inc: seq<nat>, vi: nat, bps: seq<BackPointer>, states: seq<VertexState>)
    requires vi < |bps| == |states| && IncomingReady(cfg, Corrected, E, inc, vi, states)
    ensures Pick(cfg, Corrected, E, inc, vi, bps, states) == Best(inc, Totals(cfg, E, inc, vi, bps, states), bps[vi])
    decreases |inc|
  {
    if |inc| > 0 {
      var n := |inc| - 1;
      var front := inc[..n];
      assert IncomingReady(cfg, Corrected, E, front, vi, states);
      PickAsBest(cfg, E, front, vi, bps, states);
      var ts := Totals(cfg, E, inc, vi, bps, states);
      assert ts[..n] == Totals(cfg, E, front, vi, bps, states);
      var prev := Pick(cfg, Corrected, E, front, vi, bps, states);
      if prev.Ok? {
        EdgeTotalFrame(cfg, E[inc[n]], vi, bps, states, prev.value.0);
      }
    }
  }

  /**
   * The edge loop of an unvisited vertex succeeds exactly when every
   * incoming edge has a total, and then keeps the last edge of largest
   * total, with its statistics.
   */
  lemma PickIsBest(cfg: Config, E: seq<Edge>, inc: seq<nat>, vi: nat, bps: seq<BackPointer>, states: seq<VertexState>)
    requires vi < |bps| == |states| && IncomingReady(cfg, Corrected, E, inc, vi, states) && bps[vi].score == MinScore
    ensures var ts := Totals(cfg, E, inc, vi, bps, states);
            Pick(cfg, Corrected, E, inc, vi, bps, states).Ok? <==> forall j :: 0 <= j < |ts| ==> ts[j].Ok?
    ensures var r := Pick(cfg, Corrected, E, inc, vi, bps, states);
            r.Ok? && |inc| > 0 ==> exists k: nat :: MaxAt(inc, Totals(cfg, E, inc, vi, bps, states), k, r.value)
  {
    PickAsBest(cfg, E, inc, vi, bps, states);
    BestIsMax(inc, Totals(cfg, E, inc, vi, bps, states), bps[vi]);
  }

  // ---------------------------------------------------------------------
  // The vertex loop succeeds exactly on graphs whose edges point down
  // ---------------------------------------------------------------------

  /** Every incoming edge of vertex v exists and has only children before v. */
  ghost predicate IncomingDown(E: seq<Edge>, V: seq<Vertex>, v: nat)
    requires v < |V|
  {
    forall k :: 0 <= k < |V[v].incoming| ==> V[v].incoming[k] < |E| && EarlierThan(E[V[v].incoming[k]].children, v)
  }

  /** The vertices from lo on have only incoming edges that point down. */
  ghost predicate PointsDown(E: seq<Edge>, V: seq<Vertex>, lo: nat) {
    forall v :: lo <= v < |V| ==> IncomingDown(E, V, v)
  }

  /**
   * Visiting a vertex fails when one of its edges does not point down,
   * and without the BLEU term only then.
   */
  lemma VisitPointsDown(cfg: Config, E: seq<Edge>, V: seq<Vertex>, vi: nat, bps: seq<BackPointer>, states: seq<VertexState>)
    requires Wired(cfg, Corrected, E, V) && vi < |V| && Reached(cfg, Corrected, E, V, vi, bps, states)
    ensures VisitVertex(cfg, Corrected, E, V, vi, bps, states).Ok? ==> IncomingDown(E, V, vi)
    ensures cfg.bleuWeight == 0.0 && IncomingDown(E, V, vi) ==> VisitVertex(cfg, Corrected, E, V, vi, bps, states).Ok?
  {
    var inc := V[vi].incoming;
    if |inc| > 0 {
      ReadyAt(cfg, Corrected, E, V, vi, bps, states);
      PickIsBest(cfg, E, inc, vi, bps, states);
      var ts := Totals(cfg, E, inc, vi, bps, states);
      forall k | 0 <= k < |inc|
        ensures ts[k].Ok? ==> EarlierThan(E[inc[k]].children, vi)
        ensures cfg.bleuWeight == 0.0 && EarlierThan(E[inc[k]].children, vi) ==> ts[k].Ok?
      {
        TotalsAt(cfg, E, inc, vi, bps, states, k);
        if EarlierThan(E[inc[k]].children, vi) {
          assert Scored(bps, E[inc[k]].children);
        }
      }
    }
  }

  /** The loop from vertex vi on, by induction on the vertices left. */
  lemma {:induction false} RunFromPointsDown(cfg: Config, E: seq<Edge>, V: seq<Vertex>, vi: nat, bps: seq<BackPointer>, states: seq<VertexState>)
    requires Wired(cfg, Corrected, E, V) && vi <= |V| && Reached(cfg, Corrected, E, V, vi, bps, states)
    ensures RunFrom(cfg, Corrected, E, V, vi, bps, states).Ok? ==> PointsDown(E, V, vi)
    ensures cfg.bleuWeight == 0.0 && PointsDown(E, V, vi) ==> RunFrom(cfg, Corrected, E, V, vi, bps, states).Ok?
    decreases |V| - vi
  {
    if vi < |V| {
      VisitPointsDown(cfg, E, V, vi, bps, states);
      var next := VisitVertex(cfg, Corrected, E, V, vi, bps, states);
      if next.Ok? {
        RunFromPointsDown(cfg, E, V, vi + 1, next.value.0, next.value.1);
      }
    }
  }

  /**
   * Under the corrected guard the search succeeds only on a graph whose
   * edges all point down, and without the BLEU term on every such graph.
   */
  lemma RunPointsDown(cfg: Config, E: seq<Edge>, V: seq<Vertex>)
    requires Wired(cfg, Corrected, E, V)
    ensures Search.Run(cfg, Corrected, E, V).Ok? ==> PointsDown(E, V, 0)
    ensures cfg.bleuWeight == 0.0 && PointsDown(E, V, 0) ==> Search.Run(cfg, Corrected, E, V).Ok?
  {
    StartReached(cfg, Corrected, E, V);
    RunFromPointsDown(cfg, E, V, 0, InitialBackPointers(|V|), EmptyStates(|V|));
  }

  // ---------------------------------------------------------------------
  // Without the BLEU term the scorer is never updated
  // ---------------------------------------------------------------------

  /** Without the BLEU term the loop from vertex vi on leaves the states as they are. */
  lemma {:induction false} RunFromKeepsStates(cfg: Config, guard: Guard, E: seq<Edge>, V: seq<Vertex>, vi: nat, bps: seq<BackPointer>, states: seq<VertexState>)
    requires Wired(cfg, guard, E, V) && vi <= |V| && Reached(cfg, guard, E, V, vi, bps, states) && cfg.bleuWeight == 0.0
    ensures RunFrom(cfg, guard, E, V, vi, bps, states).Ok? ==> RunFrom(cfg, guard, E, V, vi, bps, states).value.1 == states
    decreases |V| - vi
  {
    if vi < |V| {
      var next := VisitVertex(cfg, guard, E, V, vi, bps, states);
      if next.Ok? {
        assert next.value.1 == states;
        RunFromKeepsStates(cfg, guard, E, V, vi + 1, next.value.0, next.value.1);
      }
    }
  }

  /** Without the BLEU term the search leaves every vertex state as the scorer was built. */
  lemma RunKeepsStates(cfg: Config, guard: Guard, E: seq<Edge>, V: seq<Vertex>)
    requires Wired(cfg, guard, E, V) && cfg.bleuWeight == 0.0
    ensures Search.Run(cfg, guard, E, V).Ok? ==> Search.Run(cfg, guard, E, V).value.1 == EmptyStates(|V|)
  {
    StartReached(cfg, guard, E, V);
    RunFromKeepsStates(cfg, guard, E, V, 0, InitialBackPointers(|V|), EmptyStates(|V|));
  }

  // ---------------------------------------------------------------------
  // With the BLEU term each state summarises the vertex's best derivation
  // ---------------------------------------------------------------------

  /** The states of the first k vertices summarise the derivations the back pointers give them. */
  ghost predicate Summarised(E: seq<Edge>, bps: seq<BackPointer>, states: seq<VertexState>, k: nat)
    requires Derivable(E, bps) && |states| == |bps| && k <= |bps|
  {
    forall u :: 0 <= u < k ==> Summarises(states[u], Derivation(E, bps, u))
  }

  /** Replacing the back pointer of vi does not change the derivation of an earlier vertex. */
  lemma {:induction false} DerivationFrame(E: seq<Edge>, bps: seq<BackPointer>, vi: nat, x: BackPointer, u: nat)
    requires u < vi < |bps| && Derivable(E, bps) && Derivable(E, bps[vi := x])
    ensures Derivation(E, bps[vi := x], u) == Derivation(E, bps, u)
    decreases u
  {
    var after := bps[vi := x];
    if bps[u].edge.Some? {
      var cs := E[bps[u].edge.value].children;
      forall i | 0 <= i < |cs|
        ensures ChildTexts(E, after, u, cs)[i] == ChildTexts(E, bps, u, cs)[i]
      {
        ChildTextsAt(E, after, u, cs, i);
        ChildTextsAt(E, bps, u, cs, i);
        DerivationFrame(E, bps, vi, x, cs[i]);
      }
      assert ChildTexts(E, after, u, cs) == ChildTexts(E, bps, u, cs);
    }
  }

  /** The state written for vi from the picked edge summarises vi's new derivation. */
  lemma NewStateOfPick(E: seq<Edge>, bps: seq<BackPointer>, vi: nat, bp: BackPointer, states: seq<VertexState>, stats: seq<nat>)
    requires vi < |bps| == |states| && Derivable(E, bps) && Summarised(E, bps, states, vi)
    requires bp.edge.Some? && bp.edge.value < |E| && Aligned(E[bp.edge.value]) && EarlierThan(E[bp.edge.value].children, vi)
    requires Derivable(E, bps[vi := bp])
    ensures Summarises(NewState(EmptyState, E[bp.edge.value], states, stats), Derivation(E, bps[vi := bp], vi))
  {
    var after := bps[vi := bp];
    var edge := E[bp.edge.value];
    var cs := edge.children;
    var texts := ChildTexts(E, after, vi, cs);
    forall i | 0 <= i < |texts|
      ensures Summarises(states[cs[i]], texts[i])
    {
      ChildTextsAt(E, after, vi, cs, i);
      DerivationFrame(E, bps, vi, bp, cs[i]);
    }
    NewStateSummarises(edge, states, stats, texts);
  }

  /** Visiting vertex vi with the BLEU term keeps the states summarising the derivations. */
  lemma VisitSummarises(cfg: Config, E: seq<Edge>, V: seq<Vertex>, vi: nat, bps: seq<BackPointer>, states: seq<VertexState>)
    requires Wired(cfg, Corrected, E, V) && cfg.bleuWeight != 0.0 && vi < |V| && Reached(cfg, Corrected, E, V, vi, bps, states)
    requires Summarised(E, bps, states, vi)
    ensures var next := VisitVertex(cfg, Corrected, E, V, vi, bps, states);
            next.Ok? ==> Summarised(E, next.value.0, next.value.1, vi + 1)
  {
    var next := VisitVertex(cfg, Corrected, E, V, vi, bps, states);
    if next.Ok? {
      var after := next.value.0;
      assert after == bps[vi := after[vi]];
      forall u | 0 <= u < vi
        ensures Derivation(E, after, u) == Derivation(E, bps, u)
      {
        DerivationFrame(E, bps, vi, after[vi], u);
      }
      if |V[vi].incoming| > 0 {
        ReadyAt(cfg, Corrected, E, V, vi, bps, states);
        var p := Pick(cfg, Corrected, E, V[vi].incoming, vi, bps, states);
        NewStateOfPick(E, bps, vi, p.value.0, states, p.value.1);
      }
    }
  }

  /** The loop from vi on keeps the states summarising the derivations. */
  lemma {:induction false} RunFromSummarises(cfg: Config, E: seq<Edge>, V: seq<Vertex>, vi: nat, bps: seq<BackPointer>, states: seq<VertexState>)
    requires Wired(cfg, Corrected, E, V) && cfg.bleuWeight != 0.0 && vi <= |V| && Reached(cfg, Corrected, E, V, vi, bps, states)
    requires Summarised(E, bps, states, vi)
    ensures var r := RunFrom(cfg, Corrected, E, V, vi, bps, states);
            r.Ok? ==> Summarised(E, r.value.0, r.value.1, |V|)
    decreases |V| - vi
  {
    if vi < |V| {
      VisitSummarises(cfg, E, V, vi, bps, states);
      RunFromStep(cfg, Corrected, E, V, vi, bps, states);
      var next := VisitVertex(cfg, Corrected, E, V, vi, bps, states);
      if next.Ok? {
        var bps', states' := next.value.0, next.value.1;
        RunFromSummarises(cfg, E, V, vi + 1, bps', states');
      }
    }
  }

  /**
   * With the BLEU term, once the search succeeds every vertex's state
   * holds the first and last Order-1 words and the length of the
   * translation its back pointers give it, the state UpdateState is
   * meant to keep.
   */
  lemma RunSummarises(cfg: Config, E: seq<Edge>, V: seq<Vertex>)
    requires Wired(cfg, Corrected, E, V) && cfg.bleuWeight != 0.0
    ensures var r := Search.Run(cfg, Corrected, E, V);
            r.Ok? ==> Summarised(E, r.value.0, r.value.1, |V|)
  {
    StartReached(cfg, Corrected, E, V);
    RunFromSummarises(cfg, E, V, 0, InitialBackPointers(|V|), EmptyStates(|V|));
  }

  // ---------------------------------------------------------------------
  // An edge whose gap is its own head
  // ---------------------------------------------------------------------

  /** A word edge and an edge whose only slot is a gap filled by its own head, vertex 0. */
  function SelfLoopEdges(): seq<Edge> {
    [Edge([Some(Entry("a", 0))], [], map[]), Edge([None], [0], map[])]
  }

  /** One vertex with both edges incoming, the word edge first. */
  function SelfLoopVertices(): seq<Vertex> {
    [Vertex([0, 1])]
  }

  /** Feature scores all zero and no BLEU term. */
  function FlatConfig(): Config {
    Config(_ => 0.0, 0.0, (_, _, _) => 0.0, [], 0, {})
  }

  /** The edge loop of vertex 0 under the check as written: the self loop wins on its equal total. */
  lemma SelfLoopPick()
    ensures var cfg, E, V := FlatConfig(), SelfLoopEdges(), SelfLoopVertices();
            && Wired(cfg, AsWritten, E, V)
            && IncomingReady(cfg, AsWritten, E, V[0].incoming, 0, EmptyStates(1))
            && Pick(cfg, AsWritten, E, V[0].incoming, 0, InitialBackPointers(1), EmptyStates(1))
                 == Ok((BackPointer(Some(1), Finite(0.0)), Zeros))
  {
    var cfg, E, V := FlatConfig(), SelfLoopEdges(), SelfLoopVertices();
    assert EdgeFits(E, V[0].incoming[0], |E|, 0) && EdgeFits(E, V[0].incoming[1], |E|, 0);
    var bps, states := InitialBackPointers(1), EmptyStates(1);
    StartReached(cfg, AsWritten, E, V);
    ReadyAt(cfg, AsWritten, E, V, 0, bps, states);
    var inc := V[0].incoming;
    assert inc[..1] == [0] && [0][..0] == [];
    var first := Pick(cfg, AsWritten, E, [0], 0, bps, states);
    assert first == Ok((BackPointer(Some(0), Finite(0.0)), Zeros));
    var bps1 := bps[0 := first.value.0];
    assert Scored(bps1, [0]) && ChildScores([0], bps1) == 0.0;
    assert EdgeTotal(cfg, AsWritten, E[1], 0, bps1, states) == Ok((0.0, Zeros));
  }

  /**
   * The check as written accepts the self loop: once the word edge has
   * given vertex 0 a score, the second edge's child has one too, and its
   * equal total replaces the word edge, so vertex 0's back pointer points
   * to an edge whose child is vertex 0 itself and the back pointers
   * describe no finite translation.
   */
  lemma SelfLoopAsWritten()
    ensures Wired(FlatConfig(), AsWritten, SelfLoopEdges(), SelfLoopVertices())
    ensures Search.Run(FlatConfig(), AsWritten, SelfLoopEdges(), SelfLoopVertices())
              == Ok(([BackPointer(Some(1), Finite(0.0))], EmptyStates(1)))
    ensures !Derivable(SelfLoopEdges(), [BackPointer(Some(1), Finite(0.0))])
  {
    var cfg, E, V := FlatConfig(), SelfLoopEdges(), SelfLoopVertices();
    var bps, states := InitialBackPointers(1), EmptyStates(1);
    SelfLoopPick();
    StartReached(cfg, AsWritten, E, V);
    var bp := BackPointer(Some(1), Finite(0.0));
    assert bps[0 := bp] == [bp];
    assert VisitVertex(cfg, AsWritten, E, V, 0, bps, states) == Ok(([bp], states));
    assert RunFrom(cfg, AsWritten, E, V, 1, [bp], states) == Ok(([bp], states));
    assert RunFrom(cfg, AsWritten, E, V, 0, bps, states) == Ok(([bp], states));
    var after := [bp];
    assert after[0].edge == Some(1) && !EarlierThan(E[after[0].edge.value].children, 0);
  }

  /** The corrected check refuses the self loop. */
  lemma SelfLoopCorrected()
    ensures Wired(FlatConfig(), Corrected, SelfLoopEdges(), SelfLoopVertices())
    ensures Search.Run(FlatConfig(), Corrected, SelfLoopEdges(), SelfLoopVertices()) == Err(NotTopologicallySorted)
  {
    var cfg, E, V := FlatConfig(), SelfLoopEdges(), SelfLoopVertices();
    assert EdgeFits(E, V[0].incoming[0], |E|, 0) && EdgeFits(E, V[0].incoming[1], |E|, 0);
    var bps, states := InitialBackPointers(1), EmptyStates(1);
    StartReached(cfg, Corrected, E, V);
    ReadyAt(cfg, Corrected, E, V, 0, bps, states);
    var inc := V[0].incoming;
    assert inc[..1] == [0] && [0][..0] == [];
    var first := Pick(cfg, Corrected, E, [0], 0, bps, states);
    assert first == Ok((BackPointer(Some(0), Finite(0.0)), Zeros));
    assert !EarlierThan(E[1].children, 0);
    assert Pick(cfg, Corrected, E, inc, 0, bps, states) == Err(NotTopologicallySorted);
    assert VisitVertex(cfg, Corrected, E, V, 0, bps, states) == Err(NotTopologicallySorted);
  }
}
