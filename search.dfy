/**
 * The search of mert/ForestRescore.cpp. Viterbi visits the vertices in
 * index order and keeps, for each, a back pointer: the best incoming edge
 * and its score, the edge's feature score plus its children's scores plus,
 * when the BLEU weight is not zero, the weighted BLEU of the edge with its
 * children's states spliced in. GetBestTranslate then expands the back
 * pointers of the last vertex into the best translation.
 */
module Search {
  import opened Wrappers
  import opened Vocabulary
  import opened Hypergraph
  import opened References
  import opened EdgeStream
  import opened BleuStats
  import opened Contexts
  import opened BleuScorer

  /** A back pointer's score: kMinScore, the initial value, or a finite score. */
  datatype Score = MinScore | Finite(value: real)

  /** `a >= b` on scores: kMinScore lies below every finite score. */
  predicate AtLeast(a: Score, b: Score) {
    if b.MinScore? then true
    else if a.MinScore? then false
    else a.value >= b.value
  }

  /** BackPointer: the winning incoming edge (None before any, and for a leaf) and its score. */
  datatype BackPointer = BackPointer(edge: Option<nat>, score: Score)

  /** `init`: no edge and kMinScore. */
  const Unvisited := BackPointer(None, MinScore)

  /** backPointers before the vertex loop: `init` for every vertex. */
  function InitialBackPointers(n: nat): seq<BackPointer> {
    seq(n, _ => Unvisited)
  }

  /**
   * Which children the search accepts: the check as written (the child
   * has a score) or the corrected one (the child also comes before the
   * vertex being scored).
   */
  datatype Guard = AsWritten | Corrected

  /**
   * The inputs of Viterbi besides the graph: the feature score of an edge
   * (its features times the weights), the BLEU weight, the BLEU formula,
   * the reference counts, the sentence and the boundary words.
   */
  datatype Config = Config(edgeScore: Edge -> real, bleuWeight: real, bleu: Bleu,
                           refs: seq<NgramMap>, sentenceId: nat, boundary: set<nat>)

  // ---------------------------------------------------------------------
  // The graph the search needs
  // ---------------------------------------------------------------------

  /** Every child comes strictly before vertex `v`. */
  predicate EarlierThan(children: seq<nat>, v: nat) {
    forall i :: 0 <= i < |children| ==> children[i] < v
  }

  /** Every gap of edge `e` refers to a vertex with an incoming edge, and the edge has a slot. */
  predicate GapsFilled(E: seq<Edge>, V: seq<Vertex>, e: nat)
    requires e < |E|
  {
    && |E[e].words| > 0
    && forall i :: 0 <= i < |E[e].children| ==> E[e].children[i] < |V| && |V[E[e].children[i]].incoming| > 0
  }

  /**
   * Every incoming edge fills its gaps with vertices that get a state,
   * which the BLEU term needs: a vertex without incoming edges never gets
   * one.
   */
  ghost predicate Productive(E: seq<Edge>, V: seq<Vertex>) {
    forall v, k :: 0 <= v < |V| && 0 <= k < |V[v].incoming| ==> V[v].incoming[k] < |E| && GapsFilled(E, V, V[v].incoming[k])
  }

  /**
   * The graph as the reader leaves it; with the BLEU term the search
   * also needs productive edges, and the corrected guard (scoring a
   * vertex through itself would read its own empty state).
   */
  ghost predicate Wired(cfg: Config, guard: Guard, E: seq<Edge>, V: seq<Vertex>) {
    && BottomUp(E, V, |V|, |E|)
    && (cfg.bleuWeight != 0.0 ==> guard == Corrected && Productive(E, V))
  }

  /** A vertex visit's back pointers paired with the scorer's states, or its error. */
  function WithStates(r: Result<seq<BackPointer>>, states: seq<VertexState>): Result<(seq<BackPointer>, seq<VertexState>)> {
    if r.Ok? then Ok((r.value, states)) else Err(r.error)
  }

  /** The scorer reads the references, sentence and boundary words the search is configured with. */
  predicate Serves(scorer: HgBleuScorer, cfg: Config) {
    scorer.refCounts == cfg.refs && scorer.sentenceId == cfg.sentenceId && scorer.boundary == cfg.boundary
  }

  // ---------------------------------------------------------------------
  // Scoring one edge
  // ---------------------------------------------------------------------

  /** Every child has a finite score. */
  predicate Scored(bps: seq<BackPointer>, children: seq<nat>) {
    forall i :: 0 <= i < |children| ==> children[i] < |bps| && bps[children[i]].score.Finite?
  }

  /** The check of the child loop: a score, and under the corrected guard an earlier vertex. */
  predicate Accepted(guard: Guard, bps: seq<BackPointer>, vi: nat, children: seq<nat>) {
    Scored(bps, children) && (guard == Corrected ==> EarlierThan(children, vi))
  }

  /** The children's scores, summed in child order. */
  function ChildScores(children: seq<nat>, bps: seq<BackPointer>): real
    requires Scored(bps, children)
  {
    if |children| == 0 then 0.0
    else ChildScores(children[..|children| - 1], bps) + bps[children[|children| - 1]].score.value
  }

  /** The children before vertex vi have a written state. */
  predicate ChildrenReady(children: seq<nat>, vi: nat, states: seq<VertexState>) {
    forall i :: 0 <= i < |children| && children[i] < vi ==> children[i] < |states| && Written(states[children[i]])
  }

  /**
   * The score of an incoming edge of vertex vi, and the statistics Score
   * leaves: NotTopologicallySorted when a child is not accepted;
   * otherwise the feature score plus the children's scores, plus the
   * weighted BLEU when the weight is not zero (the statistics stay zero
   * when it is).
   */
  ghost function EdgeTotal(cfg: Config, guard: Guard, edge: Edge, vi: nat, bps: seq<BackPointer>, states: seq<VertexState>): (r: Result<(real, seq<nat>)>)
    requires Aligned(edge) && |states| == |bps| && ChildrenIn(edge.children, |bps|)
    requires cfg.bleuWeight != 0.0 ==> guard == Corrected && ChildrenReady(edge.children, vi, states)
    ensures r.Ok? ==> Accepted(guard, bps, vi, edge.children) && |r.value.1| == StatsSize
    ensures !Accepted(guard, bps, vi, edge.children) ==> r == Err(NotTopologicallySorted)
  {
    if !Accepted(guard, bps, vi, edge.children) then Err(NotTopologicallySorted)
    else
      var base := cfg.edgeScore(edge) + ChildScores(edge.children, bps);
      if cfg.bleuWeight == 0.0 then Ok((base, Zeros))
      else
        var stats := EdgeStats(cfg.refs, cfg.sentenceId, edge, states, cfg.boundary, Zeros);
        if stats.Err? then Err(stats.error)
        else Ok((base + cfg.bleuWeight * cfg.bleu(vi, stats.value, TargetLength(edge, states)), stats.value))
  }

  // ---------------------------------------------------------------------
  // Scoring one vertex
  // ---------------------------------------------------------------------

  /** The incoming edges `inc` of vertex vi exist and are well formed, and can be scored. */
  predicate IncomingReady(cfg: Config, guard: Guard, E: seq<Edge>, inc: seq<nat>, vi: nat, states: seq<VertexState>) {
    forall k :: 0 <= k < |inc| ==>
      && inc[k] < |E| && Aligned(E[inc[k]]) && ChildrenUpTo(E[inc[k]], vi)
      && (cfg.bleuWeight != 0.0 ==> guard == Corrected && ChildrenReady(E[inc[k]].children, vi, states))
  }

  /**
   * The loop over the incoming edges `inc` of vertex vi. Each edge is
   * scored with the back pointer found so far in place of vi's, and one
   * whose total is at least that back pointer's score replaces it, so
   * among equal totals the later edge wins; the statistics are the
   * winner's. The first error ends the loop.
   */
  ghost function Pick(cfg: Config, guard: Guard, E: seq<Edge>, inc: seq<nat>, vi: nat, bps: seq<BackPointer>, states: seq<VertexState>)
    : (r: Result<(BackPointer, seq<nat>)>)
    requires vi < |bps| == |states| && IncomingReady(cfg, guard, E, inc, vi, states)
    ensures r.Ok? ==> |r.value.1| == StatsSize
    ensures r.Ok? && |inc| > 0 && bps[vi].score == MinScore ==>
              && r.value.0.edge.Some? && r.value.0.edge.value in inc && r.value.0.score.Finite?
              && (guard == Corrected ==> EarlierThan(E[r.value.0.edge.value].children, vi))
    decreases |inc|
  {
    if |inc| == 0 then Ok((bps[vi], Zeros))
    else
      var prev := Pick(cfg, guard, E, inc[..|inc| - 1], vi, bps, states);
      if prev.Err? then prev
      else
        var e := inc[|inc| - 1];
        var t := EdgeTotal(cfg, guard, E[e], vi, bps[vi := prev.value.0], states);
        if t.Err? then Err(t.error)
        else if AtLeast(Finite(t.value.0), prev.value.0.score) then Ok((BackPointer(Some(e), Finite(t.value.0)), t.value.1))
        else prev
  }

  /** Each back pointer's edge exists, is aligned and has only earlier children. */
  ghost predicate Derivable(E: seq<Edge>, bps: seq<BackPointer>) {
    forall u :: 0 <= u < |bps| && bps[u].edge.Some? ==>
      bps[u].edge.value < |E| && Aligned(E[bps[u].edge.value]) && EarlierThan(E[bps[u].edge.value].children, u)
  }

  /** A vertex the loop has not reached: `init` and the state the scorer starts with. */
  predicate Untouched(bp: BackPointer, st: VertexState) {
    bp == Unvisited && st == EmptyState
  }

  /**
   * What holds once vertices 0..k-1 are visited: those have a finite
   * score, the others are untouched, and (with the BLEU term) every
   * visited vertex with an incoming edge has a written state; under the
   * corrected guard the back pointers only point down.
   */
  ghost predicate Reached(cfg: Config, guard: Guard, E: seq<Edge>, V: seq<Vertex>, k: nat, bps: seq<BackPointer>, states: seq<VertexState>) {
    && k <= |V| && |bps| == |V| && |states| == |V|
    && (forall u :: k <= u < |V| ==> Untouched(bps[u], states[u]))
    && (forall u :: 0 <= u < k ==> bps[u].score.Finite?)
    && (cfg.bleuWeight != 0.0 ==> forall u :: 0 <= u < k && |V[u].incoming| > 0 ==> Written(states[u]))
    && (guard == Corrected ==> Derivable(E, bps))
  }

  /** The incoming edges of the next vertex can be scored once the earlier ones are visited. */
  lemma ReadyAt(cfg: Config, guard: Guard, E: seq<Edge>, V: seq<Vertex>, vi: nat, bps: seq<BackPointer>, states: seq<VertexState>)
    requires Wired(cfg, guard, E, V) && vi < |V| && Reached(cfg, guard, E, V, vi, bps, states)
    ensures IncomingReady(cfg, guard, E, V[vi].incoming, vi, states)
  {
    var inc := V[vi].incoming;
    forall k | 0 <= k < |inc|
      ensures inc[k] < |E| && Aligned(E[inc[k]]) && ChildrenUpTo(E[inc[k]], vi)
      ensures cfg.bleuWeight != 0.0 ==> ChildrenReady(E[inc[k]].children, vi, states)
    {
      assert EdgeFits(E, inc[k], |E|, vi);
      if cfg.bleuWeight != 0.0 {
        assert GapsFilled(E, V, inc[k]);
      }
    }
  }

  /** UpdateState on an empty state, for an edge with a slot and written children, writes it. */
  lemma NewStateWritten(edge: Edge, states: seq<VertexState>, stats: seq<nat>)
    requires Aligned(edge) && ChildrenWritten(edge.children, states) && |edge.words| > 0 && |stats| == StatsSize
    ensures Written(NewState(EmptyState, edge, states, stats))
  {
    var lefts, rights := Lefts(edge.children, states), Rights(edge.children, states);
    SpliceLength(edge.words, lefts);
    SpliceLength(edge.words, rights);
    TextLengthsAtLeast(lefts);
    TextLengthsAtLeast(rights);
    var flat := Splice(edge.words, rights);
    assert [] + Reverse(flat) == Reverse(flat);
  }

  /** Texts that are all non-empty hold at least one word each. */
  lemma {:induction false} TextLengthsAtLeast(texts: seq<seq<Entry>>)
    requires forall i :: 0 <= i < |texts| ==> |texts[i]| > 0
    ensures TextLengths(texts) >= |texts|
    decreases |texts|
  {
    if |texts| > 0 {
      TextLengthsAtLeast(texts[..|texts| - 1]);
    }
  }

  /**
   * One pass of the vertex loop: a vertex without incoming edges scores
   * 0; otherwise its back pointer becomes the picked one and, with the
   * BLEU term, UpdateState writes its state from the winning edge and
   * the winner's statistics.
   */
  ghost function VisitVertex(cfg: Config, guard: Guard, E: seq<Edge>, V: seq<Vertex>, vi: nat, bps: seq<BackPointer>, states: seq<VertexState>)
    : (r: Result<(seq<BackPointer>, seq<VertexState>)>)
    requires Wired(cfg, guard, E, V) && vi < |V| && Reached(cfg, guard, E, V, vi, bps, states)
    ensures r.Ok? ==> Reached(cfg, guard, E, V, vi + 1, r.value.0, r.value.1)
  {
    if |V[vi].incoming| == 0 then Ok((bps[vi := bps[vi].(score := Finite(0.0))], states))
    else
      ReadyAt(cfg, guard, E, V, vi, bps, states);
      var p := Pick(cfg, guard, E, V[vi].incoming, vi, bps, states);
      if p.Err? then Err(p.error)
      else
        var bp := p.value.0;
        if cfg.bleuWeight == 0.0 then Ok((bps[vi := bp], states))
        else
          ChildrenWrittenAt(cfg, guard, E, V, vi, states, bp.edge.value);
          var edge := E[bp.edge.value];
          NewStateWritten(edge, states, p.value.1);
          Ok((bps[vi := bp], states[vi := NewState(states[vi], edge, states, p.value.1)]))
  }

  /** The winning edge's children are written, and it has a slot. */
  lemma ChildrenWrittenAt(cfg: Config, guard: Guard, E: seq<Edge>, V: seq<Vertex>, vi: nat, states: seq<VertexState>, e: nat)
    requires Wired(cfg, guard, E, V) && vi < |V| && |states| == |V| && cfg.bleuWeight != 0.0
    requires forall u :: 0 <= u < vi && |V[u].incoming| > 0 ==> Written(states[u])
    requires e in V[vi].incoming
    ensures e < |E| && Aligned(E[e]) && |E[e].words| > 0
    ensures EarlierThan(E[e].children, vi) ==> ChildrenWritten(E[e].children, states)
  {
    var k :| 0 <= k < |V[vi].incoming| && V[vi].incoming[k] == e;
    assert EdgeFits(E, e, |E|, vi);
    assert GapsFilled(E, V, e);
  }

  /**
   * The vertex loop of Viterbi from vertex vi on, with the back pointers
   * and states the earlier vertices left; the first error ends it.
   */
  ghost function RunFrom(cfg: Config, guard: Guard, E: seq<Edge>, V: seq<Vertex>, vi: nat, bps: seq<BackPointer>, states: seq<VertexState>)
    : (r: Result<(seq<BackPointer>, seq<VertexState>)>)
    requires Wired(cfg, guard, E, V) && vi <= |V| && Reached(cfg, guard, E, V, vi, bps, states)
    ensures r.Ok? ==> Reached(cfg, guard, E, V, |V|, r.value.0, r.value.1)
    decreases |V| - vi
  {
    if vi == |V| then Ok((bps, states))
    else
      var next := VisitVertex(cfg, guard, E, V, vi, bps, states);
      if next.Err? then next else RunFrom(cfg, guard, E, V, vi + 1, next.value.0, next.value.1)
  }

  /** One turn of the vertex loop: a successful visit of vi hands the rest of the loop its result. */
  lemma RunFromStep(cfg: Config, guard: Guard, E: seq<Edge>, V: seq<Vertex>, vi: nat, bps: seq<BackPointer>, states: seq<VertexState>)
    requires Wired(cfg, guard, E, V) && vi < |V| && Reached(cfg, guard, E, V, vi, bps, states)
    ensures var next := VisitVertex(cfg, guard, E, V, vi, bps, states);
            && (next.Err? ==> RunFrom(cfg, guard, E, V, vi, bps, states).Err?)
            && (next.Ok? ==> && Reached(cfg, guard, E, V, vi + 1, next.value.0, next.value.1)
                             && RunFrom(cfg, guard, E, V, vi, bps, states) == RunFrom(cfg, guard, E, V, vi + 1, next.value.0, next.value.1))
  {
  }

  /** Before the loop every vertex is untouched. */
  lemma StartReached(cfg: Config, guard: Guard, E: seq<Edge>, V: seq<Vertex>)
    ensures Reached(cfg, guard, E, V, 0, InitialBackPointers(|V|), EmptyStates(|V|))
  {
  }

  /** The whole vertex loop, from `init` back pointers and the scorer's empty states. */
  ghost function Run(cfg: Config, guard: Guard, E: seq<Edge>, V: seq<Vertex>): (r: Result<(seq<BackPointer>, seq<VertexState>)>)
    requires Wired(cfg, guard, E, V)
    ensures r.Ok? ==> Reached(cfg, guard, E, V, |V|, r.value.0, r.value.1)
  {
    StartReached(cfg, guard, E, V);
    RunFrom(cfg, guard, E, V, 0, InitialBackPointers(|V|), EmptyStates(|V|))
  }

  // ---------------------------------------------------------------------
  // Expanding the back pointers
  // ---------------------------------------------------------------------

  /**
   * The translation the back pointers give vertex u: nothing without an
   * edge, otherwise the edge's slots with each gap replaced by its
   * child's translation.
   */
  function Derivation(E: seq<Edge>, bps: seq<BackPointer>, u: nat): seq<Entry>
    requires Derivable(E, bps) && u < |bps|
    decreases u, 1, 0
  {
    if bps[u].edge.None? then []
    else
      var edge := E[bps[u].edge.value];
      Splice(edge.words, ChildTexts(E, bps, u, edge.children))
  }

  /** The translations of the children `cs` of vertex u, in child order. */
  function ChildTexts(E: seq<Edge>, bps: seq<BackPointer>, u: nat, cs: seq<nat>): (r: seq<seq<Entry>>)
    requires Derivable(E, bps) && u < |bps| && EarlierThan(cs, u)
    ensures |r| == |cs|
    decreases u, 0, |cs|
  {
    if |cs| == 0 then []
    else ChildTexts(E, bps, u, cs[..|cs| - 1]) + [Derivation(E, bps, cs[|cs| - 1])]
  }

  /** The i-th child text is the translation of the i-th child. */
  lemma {:induction false} ChildTextsAt(E: seq<Edge>, bps: seq<BackPointer>, u: nat, cs: seq<nat>, i: nat)
    requires Derivable(E, bps) && u < |bps| && EarlierThan(cs, u) && i < |cs|
    ensures ChildTexts(E, bps, u, cs)[i] == Derivation(E, bps, cs[i])
    decreases |cs|
  {
    if i < |cs| - 1 {
      var front := cs[..|cs| - 1];
      assert front[i] == cs[i];
      ChildTextsAt(E, bps, u, front, i);
    }
  }

  /** Viterbi's result: the translation of the last vertex appended to `text`, or the search's error. */
  ghost function Translate(cfg: Config, E: seq<Edge>, V: seq<Vertex>, text: seq<Entry>): Result<seq<Entry>>
    requires Wired(cfg, Corrected, E, V) && |V| > 0
  {
    var r := Run(cfg, Corrected, E, V);
    if r.Err? then Err(r.error) else Ok(text + Derivation(E, r.value.0, |V| - 1))
  }

  /** The sum of the first i+1 children's scores: the first i, then child i. */
  lemma ChildScoresStep(children: seq<nat>, bps: seq<BackPointer>, i: nat)
    requires i < |children| && Scored(bps, children[..i + 1])
    ensures Scored(bps, children[..i])
    ensures ChildScores(children[..i + 1], bps) == ChildScores(children[..i], bps) + bps[children[i]].score.value
  {
    assert children[..i + 1][..i] == children[..i];
  }

  // ---------------------------------------------------------------------
  // The search, on the graph
  // ---------------------------------------------------------------------

  /**
   * The child loop of Viterbi, with the corrected check: the feature
   * score plus every child's score, or NotTopologicallySorted at the
   * first child that is not accepted.
   */
  method AddChildScores(cfg: Config, edge: Edge, vi: nat, bps: seq<BackPointer>) returns (r: Result<real>)
    requires ChildrenIn(edge.children, |bps|)
    ensures r.Ok? <==> Accepted(Corrected, bps, vi, edge.children)
    ensures r.Ok? ==> r.value == cfg.edgeScore(edge) + ChildScores(edge.children, bps)
    ensures r.Err? ==> r.error == NotTopologicallySorted
  {
    var incomingScore := cfg.edgeScore(edge);
    for i := 0 to |edge.children|
      invariant Accepted(Corrected, bps, vi, edge.children[..i])
      invariant incomingScore == cfg.edgeScore(edge) + ChildScores(edge.children[..i], bps)
    {
      var childId := edge.children[i];
      if childId >= vi || bps[childId].score == MinScore {
        return Err(NotTopologicallySorted);
      }
      ChildScoresStep(edge.children, bps, i);
      incomingScore := incomingScore + bps[childId].score.value;
    }
    assert edge.children[..|edge.children|] == edge.children;
    return Ok(incomingScore);
  }

  /** The BLEU term of an edge whose children are accepted: Score, weighted, added to `base`. */
  method AddBleu(cfg: Config, scorer: HgBleuScorer, edge: Edge, vi: nat, bps: seq<BackPointer>, base: real) returns (r: Result<(real, seq<nat>)>)
    requires Serves(scorer, cfg)
    requires Aligned(edge) && |scorer.vertexStates| == |bps| && ChildrenIn(edge.children, |bps|)
    requires cfg.bleuWeight != 0.0 && ChildrenReady(edge.children, vi, scorer.vertexStates)
    requires Accepted(Corrected, bps, vi, edge.children) && base == cfg.edgeScore(edge) + ChildScores(edge.children, bps)
    ensures r == EdgeTotal(cfg, Corrected, edge, vi, bps, scorer.vertexStates)
  {
    assert ChildrenWritten(edge.children, scorer.vertexStates);
    var scored := scorer.Score(edge, vi, Zeros, cfg.bleu);
    if scored.Err? {
      return Err(scored.error);
    }
    ghost var stats := EdgeStats(cfg.refs, cfg.sentenceId, edge, scorer.vertexStates, cfg.boundary, Zeros).value;
    ghost var t := EdgeTotal(cfg, Corrected, edge, vi, bps, scorer.vertexStates);
    assert t.value.0 == base + cfg.bleuWeight * cfg.bleu(vi, stats, TargetLength(edge, scorer.vertexStates));
    var total := base + cfg.bleuWeight * scored.value.0;
    assert total == t.value.0;
    return Ok((total, scored.value.1));
  }

  /**
   * The body of the edge loop of Viterbi up to the comparison: the child
   * loop and, when the BLEU weight is not zero, Score.
   */
  method ScoreEdge(cfg: Config, scorer: HgBleuScorer, edge: Edge, vi: nat, bps: seq<BackPointer>) returns (r: Result<(real, seq<nat>)>)
    requires Serves(scorer, cfg)
    requires Aligned(edge) && |scorer.vertexStates| == |bps| && ChildrenIn(edge.children, |bps|)
    requires cfg.bleuWeight != 0.0 ==> ChildrenReady(edge.children, vi, scorer.vertexStates)
    ensures r == EdgeTotal(cfg, Corrected, edge, vi, bps, scorer.vertexStates)
  {
    var incomingScore := AddChildScores(cfg, edge, vi, bps);
    if incomingScore.Err? {
      return Err(incomingScore.error);
    }
    if cfg.bleuWeight == 0.0 {
      return Ok((incomingScore.value, Zeros));
    }
    r := AddBleu(cfg, scorer, edge, vi, bps, incomingScore.value);
  }

  /** Pick's definition one edge further. */
  lemma PickStep(cfg: Config, guard: Guard, E: seq<Edge>, inc: seq<nat>, vi: nat, bps: seq<BackPointer>, states: seq<VertexState>, ei: nat)
    requires vi < |bps| == |states| && IncomingReady(cfg, guard, E, inc, vi, states) && ei < |inc|
    ensures IncomingReady(cfg, guard, E, inc[..ei], vi, states) && IncomingReady(cfg, guard, E, inc[..ei + 1], vi, states)
    ensures Pick(cfg, guard, E, inc[..ei + 1], vi, bps, states) ==
              var prev := Pick(cfg, guard, E, inc[..ei], vi, bps, states);
              if prev.Err? then prev
              else
                var t := EdgeTotal(cfg, guard, E[inc[ei]], vi, bps[vi := prev.value.0], states);
                if t.Err? then Err(t.error)
                else if AtLeast(Finite(t.value.0), prev.value.0.score) then Ok((BackPointer(Some(inc[ei]), Finite(t.value.0)), t.value.1))
                else prev
  {
    var s := inc[..ei + 1];
    assert |s| == ei + 1 && s[..|s| - 1] == inc[..ei] && s[|s| - 1] == inc[ei];
  }

  /** Once the edge loop has stopped with an error, the remaining edges do not change the outcome. */
  lemma {:induction false} PickStaysErr(cfg: Config, guard: Guard, E: seq<Edge>, inc: seq<nat>, vi: nat, bps: seq<BackPointer>, states: seq<VertexState>, j: nat)
    requires vi < |bps| == |states| && IncomingReady(cfg, guard, E, inc, vi, states) && j <= |inc|
    requires IncomingReady(cfg, guard, E, inc[..j], vi, states) && Pick(cfg, guard, E, inc[..j], vi, bps, states).Err?
    ensures Pick(cfg, guard, E, inc, vi, bps, states) == Pick(cfg, guard, E, inc[..j], vi, bps, states)
    decreases |inc| - j
  {
    if j == |inc| {
      assert inc[..j] == inc;
    } else {
      PickStep(cfg, guard, E, inc, vi, bps, states, j);
      PickStaysErr(cfg, guard, E, inc, vi, bps, states, j + 1);
    }
  }

  /** The edge loop of Viterbi for vertex vi: every incoming edge scored, the best one kept. */
  method PickEdge(graph: Graph, cfg: Config, scorer: HgBleuScorer, inc: seq<nat>, vi: nat, bps: seq<BackPointer>)
    returns (r: Result<(BackPointer, seq<nat>)>)
    requires Serves(scorer, cfg)
    requires vi < |bps| == |scorer.vertexStates|
    requires IncomingReady(cfg, Corrected, graph.edges.data[..], inc, vi, scorer.vertexStates)
    ensures r == Pick(cfg, Corrected, graph.edges.data[..], inc, vi, bps, scorer.vertexStates)
  {
    ghost var E := graph.edges.data[..];
    var current := bps[vi];
    var winnerStats := Zeros;
    for ei := 0 to |inc|
      invariant Pick(cfg, Corrected, E, inc[..ei], vi, bps, scorer.vertexStates) == Ok((current, winnerStats))
    {
      PickStep(cfg, Corrected, E, inc, vi, bps, scorer.vertexStates, ei);
      var edge := graph.GetEdge(inc[ei]);
      var scored := ScoreEdge(cfg, scorer, edge, vi, bps[vi := current]);
      if scored.Err? {
        PickStaysErr(cfg, Corrected, E, inc, vi, bps, scorer.vertexStates, ei + 1);
        return Err(scored.error);
      }
      if AtLeast(Finite(scored.value.0), current.score) {
        current := BackPointer(Some(inc[ei]), Finite(scored.value.0));
        winnerStats := scored.value.1;
      }
    }
    assert inc[..|inc|] == inc;
    return Ok((current, winnerStats));
  }

  /**
   * A vertex with incoming edges: the picked back pointer, and with the
   * BLEU term UpdateState for the winner.
   */
  method VisitInner(graph: Graph, cfg: Config, scorer: HgBleuScorer, vi: nat, bps: seq<BackPointer>) returns (r: Result<seq<BackPointer>>)
    requires Serves(scorer, cfg)
    requires Wired(cfg, Corrected, graph.edges.data[..], graph.vertices.data[..]) && vi < graph.vertices.data.Length
    requires Reached(cfg, Corrected, graph.edges.data[..], graph.vertices.data[..], vi, bps, scorer.vertexStates)
    requires |graph.vertices.data[vi].incoming| > 0
    modifies scorer
    ensures VisitVertex(cfg, Corrected, graph.edges.data[..], graph.vertices.data[..], vi, bps, old(scorer.vertexStates)) == WithStates(r, scorer.vertexStates)
  {
    ghost var E, V := graph.edges.data[..], graph.vertices.data[..];
    var inc := graph.GetVertex(vi).incoming;
    ReadyAt(cfg, Corrected, E, V, vi, bps, scorer.vertexStates);
    var picked := PickEdge(graph, cfg, scorer, inc, vi, bps);
    if picked.Err? {
      return Err(picked.error);
    }
    var bp := picked.value.0;
    if cfg.bleuWeight != 0.0 {
      ChildrenWrittenAt(cfg, Corrected, E, V, vi, scorer.vertexStates, bp.edge.value);
      scorer.UpdateState(graph.GetEdge(bp.edge.value), vi, picked.value.1);
    }
    return Ok(bps[vi := bp]);
  }

  /** One pass of the vertex loop of Viterbi. */
  method VisitVertexStep(graph: Graph, cfg: Config, scorer: HgBleuScorer, vi: nat, bps: seq<BackPointer>) returns (r: Result<seq<BackPointer>>)
    requires Serves(scorer, cfg)
    requires Wired(cfg, Corrected, graph.edges.data[..], graph.vertices.data[..]) && vi < graph.vertices.data.Length
    requires Reached(cfg, Corrected, graph.edges.data[..], graph.vertices.data[..], vi, bps, scorer.vertexStates)
    modifies scorer
    ensures VisitVertex(cfg, Corrected, graph.edges.data[..], graph.vertices.data[..], vi, bps, old(scorer.vertexStates)) == WithStates(r, scorer.vertexStates)
  {
    if |graph.GetVertex(vi).incoming| == 0 {
      return Ok(bps[vi := bps[vi].(score := Finite(0.0))]);
    }
    r := VisitInner(graph, cfg, scorer, vi, bps);
  }

  /**
   * GetBestTranslate: the translation of vertex `vertexId` appended to
   * `text`, slot by slot, a child's translation built on its own and
   * then appended.
   */
  method GetBestTranslate(graph: Graph, bps: seq<BackPointer>, vertexId: nat, text: seq<Entry>) returns (result: seq<Entry>)
    requires Derivable(graph.edges.data[..], bps) && vertexId < |bps|
    ensures result == text + Derivation(graph.edges.data[..], bps, vertexId)
    decreases vertexId, 2
  {
    if bps[vertexId].edge.None? {
      return text;
    }
    result := AppendEdge(graph, bps, vertexId, text);
  }

  /** The body of GetBestTranslate for a vertex that has a back pointer. */
  method AppendEdge(graph: Graph, bps: seq<BackPointer>, vertexId: nat, text: seq<Entry>) returns (result: seq<Entry>)
    requires Derivable(graph.edges.data[..], bps) && vertexId < |bps| && bps[vertexId].edge.Some?
    ensures result == text + Derivation(graph.edges.data[..], bps, vertexId)
    decreases vertexId, 1
  {
    ghost var E := graph.edges.data[..];
    var prevEdge := graph.GetEdge(bps[vertexId].edge.value);
    assert prevEdge == E[bps[vertexId].edge.value];
    ghost var texts := ChildTexts(E, bps, vertexId, prevEdge.children);
    result := text;
    var childId := 0;
    for i := 0 to |prevEdge.words|
      invariant childId == NullCount(prevEdge.words[..i]) <= |texts|
      invariant result == text + Splice(prevEdge.words[..i], texts[..childId])
    {
      result, childId := AppendSlot(graph, bps, vertexId, prevEdge, texts, i, childId, text, result);
    }
    assert prevEdge.words[..|prevEdge.words|] == prevEdge.words;
    assert texts[..childId] == texts;
  }

  /** One pass of GetBestTranslate's slot loop: a literal word, or the next child's translation. */
  method AppendSlot(graph: Graph, bps: seq<BackPointer>, vertexId: nat, edge: Edge, ghost texts: seq<seq<Entry>>,
                    i: nat, childId: nat, ghost text: seq<Entry>, result: seq<Entry>)
    returns (result': seq<Entry>, childId': nat)
    requires Derivable(graph.edges.data[..], bps) && vertexId < |bps|
    requires Aligned(edge) && EarlierThan(edge.children, vertexId)
    requires texts == ChildTexts(graph.edges.data[..], bps, vertexId, edge.children)
    requires i < |edge.words| && childId == NullCount(edge.words[..i]) <= |texts|
    requires result == text + Splice(edge.words[..i], texts[..childId])
    ensures childId' == NullCount(edge.words[..i + 1]) <= |texts|
    ensures result' == text + Splice(edge.words[..i + 1], texts[..childId'])
    decreases vertexId, 0, 1
  {
    SpliceStep(edge.words, texts, i, childId);
    if edge.words[i].Some? {
      result', childId' := result + [edge.words[i].value], childId;
    } else {
      var childText := AppendChild(graph, bps, vertexId, edge, texts, childId);
      result', childId' := result + childText, childId + 1;
    }
  }

  /** A gap of GetBestTranslate's slot loop: the translation of the next child, built on its own. */
  method AppendChild(graph: Graph, bps: seq<BackPointer>, vertexId: nat, edge: Edge, ghost texts: seq<seq<Entry>>, childId: nat)
    returns (childText: seq<Entry>)
    requires Derivable(graph.edges.data[..], bps) && vertexId < |bps|
    requires Aligned(edge) && EarlierThan(edge.children, vertexId)
    requires texts == ChildTexts(graph.edges.data[..], bps, vertexId, edge.children) && childId < |texts|
    ensures childText == texts[childId]
    decreases vertexId, 0, 0
  {
    ChildTextsAt(graph.edges.data[..], bps, vertexId, edge.children, childId);
    childText := GetBestTranslate(graph, bps, edge.children[childId], []);
  }

  /** The splice of the first i+1 slots extends the splice of the first i by one word or one text. */
  lemma {:induction false} SpliceStep(words: seq<Option<Entry>>, texts: seq<seq<Entry>>, i: nat, c: nat)
    requires i < |words| && NullCount(words) == |texts| && c == NullCount(words[..i])
    ensures NullCount(words[..i + 1]) <= |texts|
    ensures words[i].Some? ==> NullCount(words[..i + 1]) == c && Splice(words[..i + 1], texts[..c]) == Splice(words[..i], texts[..c]) + [words[i].value]
    ensures words[i].None? ==> NullCount(words[..i + 1]) == c + 1 && Splice(words[..i + 1], texts[..c + 1]) == Splice(words[..i], texts[..c]) + texts[c]
  {
    var m := NullCount(words[..i + 1]);
    NullCountAppend(words[..i + 1], words[i + 1..]);
    assert words[..i + 1] + words[i + 1..] == words;
    SpliceSnoc(words, texts, i + 1, m);
  }

  /**
   * Viterbi: the vertices are visited in index order, then the last
   * vertex's translation is appended to `text`.
   */
  method Viterbi(graph: Graph, cfg: Config, text: seq<Entry>) returns (r: Result<seq<Entry>>)
    requires graph.VertexSize() == graph.vertices.Capacity() > 0
    requires BottomUp(graph.edges.data[..], graph.vertices.data[..], graph.VertexSize(), graph.EdgeSize())
    requires cfg.bleuWeight != 0.0 ==> Productive(graph.edges.data[..], graph.vertices.data[..])
    ensures Wired(cfg, Corrected, graph.edges.data[..], graph.vertices.data[..])
    ensures r == Translate(cfg, graph.edges.data[..], graph.vertices.data[..], text)
  {
    BottomUpAllEdges(graph.edges.data[..], graph.vertices.data[..], graph.EdgeSize());
    var bleuScorer := new HgBleuScorer(cfg.refs, cfg.sentenceId, cfg.boundary, graph.VertexSize());
    var visited := VisitAll(graph, cfg, bleuScorer);
    TranslateOf(cfg, graph.edges.data[..], graph.vertices.data[..], text, visited, bleuScorer.vertexStates);
    r := BestTranslation(graph, visited, text);
  }

  /** The last vertex's translation appended to `text`, or the vertex loop's error. */
  method BestTranslation(graph: Graph, visited: Result<seq<BackPointer>>, text: seq<Entry>) returns (r: Result<seq<Entry>>)
    requires visited.Ok? ==> Derivable(graph.edges.data[..], visited.value) && |visited.value| > 0
    ensures visited.Err? ==> r == Err(visited.error)
    ensures visited.Ok? ==> r == Ok(text + Derivation(graph.edges.data[..], visited.value, |visited.value| - 1))
  {
    if visited.Err? {
      return Err(visited.error);
    }
    var translation := GetBestTranslate(graph, visited.value, |visited.value| - 1, text);
    return Ok(translation);
  }

  /** The vertex loop of Viterbi, from the initial back pointers to the last vertex. */
  method VisitAll(graph: Graph, cfg: Config, bleuScorer: HgBleuScorer) returns (r: Result<seq<BackPointer>>)
    requires Wired(cfg, Corrected, graph.edges.data[..], graph.vertices.data[..])
    requires Serves(bleuScorer, cfg)
    requires bleuScorer.vertexStates == EmptyStates(graph.vertices.data.Length)
    modifies bleuScorer
    ensures Run(cfg, Corrected, graph.edges.data[..], graph.vertices.data[..]) == WithStates(r, bleuScorer.vertexStates)
  {
    ghost var E, V := graph.edges.data[..], graph.vertices.data[..];
    ghost var outcome := Run(cfg, Corrected, E, V);
    var n := graph.vertices.data.Length;
    StartReached(cfg, Corrected, E, V);
    r := Ok(InitialBackPointers(n));
    var vi := 0;
    while vi < n && r.Ok?
      invariant vi <= n
      invariant r.Ok? ==> Reached(cfg, Corrected, E, V, vi, r.value, bleuScorer.vertexStates)
      invariant r.Ok? ==> RunFrom(cfg, Corrected, E, V, vi, r.value, bleuScorer.vertexStates) == outcome
      invariant r.Err? ==> outcome == Err(r.error)
      decreases n - vi
    {
      r := VisitNext(graph, cfg, bleuScorer, vi, r.value);
      vi := vi + 1;
    }
  }

  /** One pass of the vertex loop: the rest of the loop from vertex vi is the rest from vi+1, or the error. */
  method VisitNext(graph: Graph, cfg: Config, bleuScorer: HgBleuScorer, vi: nat, bps: seq<BackPointer>) returns (r: Result<seq<BackPointer>>)
    requires Wired(cfg, Corrected, graph.edges.data[..], graph.vertices.data[..]) && vi < graph.vertices.data.Length
    requires Serves(bleuScorer, cfg)
    requires Reached(cfg, Corrected, graph.edges.data[..], graph.vertices.data[..], vi, bps, bleuScorer.vertexStates)
    modifies bleuScorer
    ensures r.Ok? ==> Reached(cfg, Corrected, graph.edges.data[..], graph.vertices.data[..], vi + 1, r.value, bleuScorer.vertexStates)
    ensures r.Ok? ==> RunFrom(cfg, Corrected, graph.edges.data[..], graph.vertices.data[..], vi, bps, old(bleuScorer.vertexStates))
                      == RunFrom(cfg, Corrected, graph.edges.data[..], graph.vertices.data[..], vi + 1, r.value, bleuScorer.vertexStates)
    ensures r.Err? ==> RunFrom(cfg, Corrected, graph.edges.data[..], graph.vertices.data[..], vi, bps, old(bleuScorer.vertexStates)) == Err(r.error)
  {
    r := VisitVertexStep(graph, cfg, bleuScorer, vi, bps);
  }

  /** Viterbi's result from the outcome of its vertex loop. */
  lemma TranslateOf(cfg: Config, E: seq<Edge>, V: seq<Vertex>, text: seq<Entry>, visited: Result<seq<BackPointer>>, states: seq<VertexState>)
    requires Wired(cfg, Corrected, E, V) && |V| > 0 && Run(cfg, Corrected, E, V) == WithStates(visited, states)
    ensures visited.Ok? ==> Derivable(E, visited.value) && |visited.value| == |V|
    ensures visited.Err? ==> Translate(cfg, E, V, text) == Err(visited.error)
    ensures visited.Ok? ==> Translate(cfg, E, V, text) == Ok(text + Derivation(E, visited.value, |visited.value| - 1))
  {
  }
}
