/**
 * Without the BLEU term Viterbi is the max-score derivation of the
 * hypergraph: a derivation of a vertex picks one of its incoming edges
 * and a derivation of each of that edge's children, a vertex without
 * incoming edges is derived by itself, and a derivation's score is the
 * sum of the feature scores of its edges. Under the corrected guard the
 * back pointers the search leaves describe, for every vertex, a
 * derivation whose score is the vertex's back-pointer score, and no
 * derivation scores more.
 */
module Optimality {
  import opened Wrappers
  import opened Vocabulary
  import opened Hypergraph
  import opened EdgeStream
  import opened Contexts
  import opened BleuStats
  import opened Search
  import opened SearchProperties

  /** A derivation: a vertex without incoming edges, or an edge with one derivation per child. */
  datatype Tree = Leaf | Node(edge: nat, kids: seq<Tree>)

  /** `t` derives vertex u of the graph. */
  ghost predicate Derives(E: seq<Edge>, V: seq<Vertex>, t: Tree, u: nat)
    decreases t
  {
    && u < |V|
    && match t
       case Leaf => |V[u].incoming| == 0
       case Node(e, kids) =>
         && e in V[u].incoming && e < |E| && |kids| == |E[e].children|
         && forall i :: 0 <= i < |kids| ==> Derives(E, V, kids[i], E[e].children[i])
  }

  /** The score of a derivation of vertex u: the feature scores of its edges, summed. */
  ghost function TreeScore(cfg: Config, E: seq<Edge>, V: seq<Vertex>, t: Tree, u: nat): real
    requires Derives(E, V, t, u)
    decreases t, 1
  {
    match t
    case Leaf => 0.0
    case Node(e, kids) => cfg.edgeScore(E[e]) + KidsScore(cfg, E, V, kids, E[e].children)
  }

  /** The scores of derivations `kids` of the vertices `cs`, summed in child order. */
  ghost function KidsScore(cfg: Config, E: seq<Edge>, V: seq<Vertex>, kids: seq<Tree>, cs: seq<nat>): real
    requires |kids| == |cs| && forall i :: 0 <= i < |kids| ==> Derives(E, V, kids[i], cs[i])
    decreases kids, 0
  {
    if |kids| == 0 then 0.0
    else
      var n := |kids| - 1;
      KidsScore(cfg, E, V, kids[..n], cs[..n]) + TreeScore(cfg, E, V, kids[n], cs[n])
  }

  /** The derivation the back pointers give vertex u. */
  function BestTree(E: seq<Edge>, bps: seq<BackPointer>, u: nat): Tree
    requires Derivable(E, bps) && u < |bps|
    decreases u, 1, 0
  {
    if bps[u].edge.None? then Leaf
    else
      var e := bps[u].edge.value;
      Node(e, BestKids(E, bps, u, E[e].children))
  }

  /** The derivations the back pointers give the children `cs` of vertex u. */
  function BestKids(E: seq<Edge>, bps: seq<BackPointer>, u: nat, cs: seq<nat>): (r: seq<Tree>)
    requires Derivable(E, bps) && u < |bps| && EarlierThan(cs, u)
    ensures |r| == |cs|
    decreases u, 0, |cs|
  {
    if |cs| == 0 then []
    else BestKids(E, bps, u, cs[..|cs| - 1]) + [BestTree(E, bps, cs[|cs| - 1])]
  }

  /** The i-th derivation of BestKids is the i-th child's. */
  lemma {:induction false} BestKidsAt(E: seq<Edge>, bps: seq<BackPointer>, u: nat, cs: seq<nat>, i: nat)
    requires Derivable(E, bps) && u < |bps| && EarlierThan(cs, u) && i < |cs|
    ensures BestKids(E, bps, u, cs)[i] == BestTree(E, bps, cs[i])
    decreases |cs|
  {
    if i < |cs| - 1 {
      var front := cs[..|cs| - 1];
      assert front[i] == cs[i];
      BestKidsAt(E, bps, u, front, i);
    }
  }

  /** Replacing the back pointer of vi does not change the derivation of an earlier vertex. */
  lemma {:induction false} BestTreeFrame(E: seq<Edge>, bps: seq<BackPointer>, vi: nat, x: BackPointer, u: nat)
    requires u < vi < |bps| && Derivable(E, bps) && Derivable(E, bps[vi := x])
    ensures BestTree(E, bps[vi := x], u) == BestTree(E, bps, u)
    decreases u
  {
    var after := bps[vi := x];
    if bps[u].edge.Some? {
      var cs := E[bps[u].edge.value].children;
      forall i | 0 <= i < |cs|
        ensures BestKids(E, after, u, cs)[i] == BestKids(E, bps, u, cs)[i]
      {
        BestKidsAt(E, after, u, cs, i);
        BestKidsAt(E, bps, u, cs, i);
        BestTreeFrame(E, bps, vi, x, cs[i]);
      }
      assert BestKids(E, after, u, cs) == BestKids(E, bps, u, cs);
    }
  }

  /**
   * Kid by kid at most (or exactly) the children's back-pointer scores
   * gives, summed, at most (or exactly) their sum.
   */
  lemma {:induction false} KidsScoreBound(cfg: Config, E: seq<Edge>, V: seq<Vertex>, kids: seq<Tree>, cs: seq<nat>, bps: seq<BackPointer>)
    requires |kids| == |cs| && (forall i :: 0 <= i < |kids| ==> Derives(E, V, kids[i], cs[i])) && Scored(bps, cs)
    ensures (forall i :: 0 <= i < |kids| ==> TreeScore(cfg, E, V, kids[i], cs[i]) <= bps[cs[i]].score.value) ==>
              KidsScore(cfg, E, V, kids, cs) <= ChildScores(cs, bps)
    ensures (forall i :: 0 <= i < |kids| ==> TreeScore(cfg, E, V, kids[i], cs[i]) == bps[cs[i]].score.value) ==>
              KidsScore(cfg, E, V, kids, cs) == ChildScores(cs, bps)
    decreases |kids|
  {
    if |kids| > 0 {
      var n := |kids| - 1;
      var fk, fc := kids[..n], cs[..n];
      assert forall i :: 0 <= i < n ==> fk[i] == kids[i] && fc[i] == cs[i];
      KidsScoreBound(cfg, E, V, fk, fc, bps);
    }
  }

  /**
   * The back pointers of the first k vertices are optimal: each has a
   * finite score, its back-pointer derivation derives it with exactly
   * that score, and no derivation of it scores more.
   */
  ghost predicate Optimal(cfg: Config, E: seq<Edge>, V: seq<Vertex>, bps: seq<BackPointer>, k: nat)
    requires Derivable(E, bps) && |bps| == |V| && k <= |V|
  {
    forall u :: 0 <= u < k ==>
      && bps[u].score.Finite?
      && Derives(E, V, BestTree(E, bps, u), u)
      && TreeScore(cfg, E, V, BestTree(E, bps, u), u) == bps[u].score.value
      && forall t :: Derives(E, V, t, u) ==> TreeScore(cfg, E, V, t, u) <= bps[u].score.value
  }

  /** Optimal extends to vi once vi's new back pointer is optimal for vi. */
  lemma OptimalExtend(cfg: Config, E: seq<Edge>, V: seq<Vertex>, bps: seq<BackPointer>, vi: nat, bp: BackPointer)
    requires vi < |V| == |bps| && Derivable(E, bps) && Derivable(E, bps[vi := bp]) && Optimal(cfg, E, V, bps, vi)
    requires bp.score.Finite? && Derives(E, V, BestTree(E, bps[vi := bp], vi), vi)
    requires TreeScore(cfg, E, V, BestTree(E, bps[vi := bp], vi), vi) == bp.score.value
    requires forall t :: Derives(E, V, t, vi) ==> TreeScore(cfg, E, V, t, vi) <= bp.score.value
    ensures Optimal(cfg, E, V, bps[vi := bp], vi + 1)
  {
    forall u | 0 <= u < vi
      ensures BestTree(E, bps[vi := bp], u) == BestTree(E, bps, u)
    {
      BestTreeFrame(E, bps, vi, bp, u);
    }
  }

  /** A vertex without incoming edges is derived only by itself, with score 0. */
  lemma LeafOptimal(cfg: Config, E: seq<Edge>, V: seq<Vertex>, vi: nat, bps: seq<BackPointer>, states: seq<VertexState>)
    requires Wired(cfg, Corrected, E, V) && cfg.bleuWeight == 0.0 && vi < |V| && Reached(cfg, Corrected, E, V, vi, bps, states)
    requires Optimal(cfg, E, V, bps, vi) && |V[vi].incoming| == 0
    ensures var next := VisitVertex(cfg, Corrected, E, V, vi, bps, states);
            next.Ok? && Optimal(cfg, E, V, next.value.0, vi + 1)
  {
    var bp := bps[vi].(score := Finite(0.0));
    assert VisitVertex(cfg, Corrected, E, V, vi, bps, states) == Ok((bps[vi := bp], states));
    assert BestTree(E, bps[vi := bp], vi) == Leaf;
    OptimalExtend(cfg, E, V, bps, vi, bp);
  }

  /**
   * A vertex with incoming edges keeps the edge of largest total, which
   * without the BLEU term is the edge's feature score plus its children's
   * best scores, so no derivation through another edge scores more.
   */
  lemma InnerOptimal(cfg: Config, E: seq<Edge>, V: seq<Vertex>, vi: nat, bps: seq<BackPointer>, states: seq<VertexState>)
    requires Wired(cfg, Corrected, E, V) && cfg.bleuWeight == 0.0 && vi < |V| && Reached(cfg, Corrected, E, V, vi, bps, states)
    requires Optimal(cfg, E, V, bps, vi) && |V[vi].incoming| > 0
    ensures var next := VisitVertex(cfg, Corrected, E, V, vi, bps, states);
            next.Ok? ==> Optimal(cfg, E, V, next.value.0, vi + 1)
  {
    var next := VisitVertex(cfg, Corrected, E, V, vi, bps, states);
    if next.Ok? {
      var inc := V[vi].incoming;
      ReadyAt(cfg, Corrected, E, V, vi, bps, states);
      var p := Pick(cfg, Corrected, E, inc, vi, bps, states);
      PickIsBest(cfg, E, inc, vi, bps, states);
      var ts := Totals(cfg, E, inc, vi, bps, states);
      var k: nat :| MaxAt(inc, ts, k, p.value);
      var bp := p.value.0;
      var after := bps[vi := bp];
      assert next.value.0 == after;
      forall t | Derives(E, V, t, vi)
        ensures TreeScore(cfg, E, V, t, vi) <= bp.score.value
      {
        var j: nat :| j < |inc| && inc[j] == t.edge;
        EdgeBound(cfg, E, V, vi, bps, states, j, t.kids);
      }
      BestAttained(cfg, E, V, vi, bps, states, k, bp);
      OptimalExtend(cfg, E, V, bps, vi, bp);
    }
  }

  /** The back-pointer derivation through the winning edge k derives vi and scores the edge's total. */
  lemma BestAttained(cfg: Config, E: seq<Edge>, V: seq<Vertex>, vi: nat, bps: seq<BackPointer>, states: seq<VertexState>, k: nat, bp: BackPointer)
    requires Wired(cfg, Corrected, E, V) && cfg.bleuWeight == 0.0 && vi < |V| && Reached(cfg, Corrected, E, V, vi, bps, states)
    requires Optimal(cfg, E, V, bps, vi) && k < |V[vi].incoming|
    requires IncomingReady(cfg, Corrected, E, V[vi].incoming, vi, states)
    requires var t := Totals(cfg, E, V[vi].incoming, vi, bps, states)[k];
             t.Ok? && bp == BackPointer(Some(V[vi].incoming[k]), Finite(t.value.0))
    requires Derivable(E, bps[vi := bp])
    ensures Derives(E, V, BestTree(E, bps[vi := bp], vi), vi)
    ensures TreeScore(cfg, E, V, BestTree(E, bps[vi := bp], vi), vi) == bp.score.value
  {
    var inc := V[vi].incoming;
    TotalsAt(cfg, E, inc, vi, bps, states, k);
    var after := bps[vi := bp];
    var cs := E[inc[k]].children;
    var kids := BestKids(E, after, vi, cs);
    forall i | 0 <= i < |cs|
      ensures kids[i] == BestTree(E, bps, cs[i])
    {
      BestKidsAt(E, after, vi, cs, i);
      BestTreeFrame(E, bps, vi, bp, cs[i]);
    }
    KidsScoreBound(cfg, E, V, kids, cs, bps);
  }

  /**
   * A derivation of vi through its j-th incoming edge scores at most that
   * edge's total, when the earlier vertices are optimal.
   */
  lemma EdgeBound(cfg: Config, E: seq<Edge>, V: seq<Vertex>, vi: nat, bps: seq<BackPointer>, states: seq<VertexState>, j: nat, kids: seq<Tree>)
    requires Wired(cfg, Corrected, E, V) && cfg.bleuWeight == 0.0 && vi < |V| && Reached(cfg, Corrected, E, V, vi, bps, states)
    requires Optimal(cfg, E, V, bps, vi) && j < |V[vi].incoming|
    requires IncomingReady(cfg, Corrected, E, V[vi].incoming, vi, states)
    requires Totals(cfg, E, V[vi].incoming, vi, bps, states)[j].Ok?
    requires Derives(E, V, Node(V[vi].incoming[j], kids), vi)
    ensures TreeScore(cfg, E, V, Node(V[vi].incoming[j], kids), vi) <= Totals(cfg, E, V[vi].incoming, vi, bps, states)[j].value.0
  {
    var inc := V[vi].incoming;
    TotalsAt(cfg, E, inc, vi, bps, states, j);
    var cs := E[inc[j]].children;
    KidsScoreBound(cfg, E, V, kids, cs, bps);
  }

  /** The loop from vi on keeps the back pointers optimal. */
  lemma {:induction false} RunFromOptimal(cfg: Config, E: seq<Edge>, V: seq<Vertex>, vi: nat, bps: seq<BackPointer>, states: seq<VertexState>)
    requires Wired(cfg, Corrected, E, V) && cfg.bleuWeight == 0.0 && vi <= |V| && Reached(cfg, Corrected, E, V, vi, bps, states)
    requires Optimal(cfg, E, V, bps, vi)
    ensures var r := RunFrom(cfg, Corrected, E, V, vi, bps, states);
            r.Ok? ==> Optimal(cfg, E, V, r.value.0, |V|)
    decreases |V| - vi
  {
    if vi < |V| {
      if |V[vi].incoming| == 0 {
        LeafOptimal(cfg, E, V, vi, bps, states);
      } else {
        InnerOptimal(cfg, E, V, vi, bps, states);
      }
      RunFromStep(cfg, Corrected, E, V, vi, bps, states);
      var next := VisitVertex(cfg, Corrected, E, V, vi, bps, states);
      if next.Ok? {
        var bps', states' := next.value.0, next.value.1;
        RunFromOptimal(cfg, E, V, vi + 1, bps', states');
      }
    }
  }

  /**
   * Without the BLEU term, once the search succeeds every vertex's back
   * pointers give a derivation of it that scores its back-pointer score,
   * and no derivation of it scores more.
   */
  lemma RunOptimal(cfg: Config, E: seq<Edge>, V: seq<Vertex>)
    requires Wired(cfg, Corrected, E, V) && cfg.bleuWeight == 0.0
    ensures var r := Search.Run(cfg, Corrected, E, V);
            r.Ok? ==> Optimal(cfg, E, V, r.value.0, |V|)
  {
    StartReached(cfg, Corrected, E, V);
    RunFromOptimal(cfg, E, V, 0, InitialBackPointers(|V|), EmptyStates(|V|));
  }

  // ---------------------------------------------------------------------
  // The words of a derivation
  // ---------------------------------------------------------------------

  /** An incoming edge of a vertex of a bottom-up graph has one gap per child. */
  lemma IncomingAligned(E: seq<Edge>, V: seq<Vertex>, u: nat, e: nat)
    requires BottomUp(E, V, |V|, |E|) && u < |V| && e in V[u].incoming
    ensures e < |E| && Aligned(E[e])
  {
    var k :| 0 <= k < |V[u].incoming| && V[u].incoming[k] == e;
    assert EdgeFits(E, V[u].incoming[k], |E|, u);
  }

  /**
   * The words a derivation of vertex u yields: nothing for a leaf,
   * otherwise the edge's slots with each gap replaced by the words of the
   * derivation of its child.
   */
  ghost function Yield(E: seq<Edge>, V: seq<Vertex>, t: Tree, u: nat): seq<Entry>
    requires BottomUp(E, V, |V|, |E|) && Derives(E, V, t, u)
    decreases t, 1
  {
    match t
    case Leaf => []
    case Node(e, kids) =>
      IncomingAligned(E, V, u, e);
      Splice(E[e].words, KidsYield(E, V, kids, E[e].children))
  }

  /** The words of derivations `kids` of the vertices `cs`, in child order. */
  ghost function KidsYield(E: seq<Edge>, V: seq<Vertex>, kids: seq<Tree>, cs: seq<nat>): (r: seq<seq<Entry>>)
    requires BottomUp(E, V, |V|, |E|)
    requires |kids| == |cs| && forall i :: 0 <= i < |kids| ==> Derives(E, V, kids[i], cs[i])
    ensures |r| == |kids|
    decreases kids, 0
  {
    if |kids| == 0 then []
    else
      var n := |kids| - 1;
      KidsYield(E, V, kids[..n], cs[..n]) + [Yield(E, V, kids[n], cs[n])]
  }

  /** The i-th text of KidsYield is the i-th derivation's words. */
  lemma {:induction false} KidsYieldAt(E: seq<Edge>, V: seq<Vertex>, kids: seq<Tree>, cs: seq<nat>, i: nat)
    requires BottomUp(E, V, |V|, |E|)
    requires |kids| == |cs| && forall j :: 0 <= j < |kids| ==> Derives(E, V, kids[j], cs[j])
    requires i < |kids|
    ensures KidsYield(E, V, kids, cs)[i] == Yield(E, V, kids[i], cs[i])
    decreases |kids|
  {
    if i < |kids| - 1 {
      var n := |kids| - 1;
      assert kids[..n][i] == kids[i] && cs[..n][i] == cs[i];
      KidsYieldAt(E, V, kids[..n], cs[..n], i);
    }
  }

  /**
   * The derivation the back pointers give vertex u yields exactly the
   * words GetBestTranslate expands from u.
   */
  lemma {:induction false} BestTreeYield(E: seq<Edge>, V: seq<Vertex>, bps: seq<BackPointer>, u: nat)
    requires BottomUp(E, V, |V|, |E|) && Derivable(E, bps) && u < |bps|
    requires Derives(E, V, BestTree(E, bps, u), u)
    ensures Yield(E, V, BestTree(E, bps, u), u) == Derivation(E, bps, u)
    decreases u
  {
    if bps[u].edge.Some? {
      var e := bps[u].edge.value;
      var cs := E[e].children;
      var kids := BestKids(E, bps, u, cs);
      assert BestTree(E, bps, u) == Node(e, kids);
      forall i | 0 <= i < |cs|
        ensures KidsYield(E, V, kids, cs)[i] == ChildTexts(E, bps, u, cs)[i]
      {
        KidsYieldAt(E, V, kids, cs, i);
        BestKidsAt(E, bps, u, cs, i);
        ChildTextsAt(E, bps, u, cs, i);
        BestTreeYield(E, V, bps, cs[i]);
      }
      assert KidsYield(E, V, kids, cs) == ChildTexts(E, bps, u, cs);
    }
  }

  /**
   * Without the BLEU term, a successful Viterbi returns `text` followed by
   * the words of a derivation of the last vertex that no derivation of
   * that vertex outscores.
   */
  lemma ViterbiYieldsBest(cfg: Config, E: seq<Edge>, V: seq<Vertex>, text: seq<Entry>, root: nat)
    requires Wired(cfg, Corrected, E, V) && cfg.bleuWeight == 0.0 && root + 1 == |V|
    ensures Translate(cfg, E, V, text).Ok? ==>
              exists best :: Derives(E, V, best, root)
                && Translate(cfg, E, V, text).value == text + Yield(E, V, best, root)
                && forall t :: Derives(E, V, t, root) ==> TreeScore(cfg, E, V, t, root) <= TreeScore(cfg, E, V, best, root)
  {
    var r := Search.Run(cfg, Corrected, E, V);
    if r.Ok? {
      RunOptimal(cfg, E, V);
      var bps := r.value.0;
      var best := BestTree(E, bps, root);
      assert Derives(E, V, best, root);
      BestTreeYield(E, V, bps, root);
      assert Translate(cfg, E, V, text).value == text + Yield(E, V, best, root);
    }
  }
}
