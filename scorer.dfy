/**
 * HgBleuScorer (mert/ForestRescore.cpp): the per-sentence BLEU scorer of
 * the hypergraph search. It keeps one VertexState per vertex; Score walks
 * an edge with its children's states spliced in, counts the n-grams that
 * cross a child boundary and adds their matches and the children's
 * statistics; UpdateState writes the state of a vertex from its winning
 * edge.
 */
module BleuScorer {
  import opened Wrappers
  import opened Vocabulary
  import opened Ngram
  import opened Hypergraph
  import opened References
  import opened EdgeStream
  import opened BleuStats
  import opened Contexts

  /**
   * The smoothed, brevity-penalised BLEU that Score computes in floating
   * point from the statistics, for the head vertex with the given index
   * and the edge's target length.
   */
  type Bleu = (nat, seq<nat>, nat) -> real

  // ---------------------------------------------------------------------
  // The loop of UpdateMatches
  // ---------------------------------------------------------------------

  /**
   * The loop over the distinct n-grams of `c` has the n-grams `remaining`
   * still to visit: what it has added so far plus what those will add is
   * what all of them add.
   */
  ghost predicate MatchLoopInv(c: multiset<Key>, m: NgramMap, stats: seq<nat>, remaining: set<Key>, acc: seq<nat>) {
    && |stats| == StatsSize && |acc| == StatsSize && remaining <= Support(c)
    && forall i :: 0 <= i < StatsSize ==> acc[i] + KeySum(remaining, c, m, i) == stats[i] + KeySum(Support(c), c, m, i)
  }

  /** The two slots one n-gram of count `count` and reference count `ref` adds to. */
  function AddShare(acc: seq<nat>, g: Key, count: nat, ref: nat): (r: seq<nat>)
    requires |acc| == StatsSize && 1 <= |g| <= Order
    ensures |r| == StatsSize && forall i :: 0 <= i < StatsSize ==> r[i] == acc[i] + Slot(g, i, count, ref)
  {
    var total, matched := 2 * (|g| - 1) + 1, 2 * (|g| - 1);
    var a := acc[total := acc[total] + count];
    a[matched := a[matched] + Min(count, ref)]
  }

  lemma MatchStep(c: multiset<Key>, m: NgramMap, stats: seq<nat>, remaining: set<Key>, acc: seq<nat>, g: Key)
    requires MatchLoopInv(c, m, stats, remaining, acc) && g in remaining && Orders(c)
    ensures 1 <= |g| <= Order
    ensures MatchLoopInv(c, m, stats, remaining - {g}, AddShare(acc, g, c[g], RefCount(m, g)))
  {
    forall i | 0 <= i < StatsSize
      ensures AddShare(acc, g, c[g], RefCount(m, g))[i] + KeySum(remaining - {g}, c, m, i) == stats[i] + KeySum(Support(c), c, m, i)
    {
      KeySumPick(remaining, c, m, i, g);
    }
  }

  lemma MatchFinish(refs: seq<NgramMap>, s: nat, c: multiset<Key>, stats: seq<nat>, acc: seq<nat>)
    requires s < |refs| && c != multiset{} && MatchLoopInv(c, refs[s], stats, {}, acc)
    ensures MatchStats(refs, s, c, stats) == Ok(acc)
  {
    var want := MatchStats(refs, s, c, stats).value;
    forall i | 0 <= i < StatsSize ensures acc[i] == want[i] {
      assert KeySum({}, c, refs[s], i) == 0;
      assert want[i] == stats[i] + KeySum(Support(c), c, refs[s], i);
    }
    assert acc == want;
  }

  /** The as-written loop over the elements of `c` has the elements `remaining` still to visit. */
  ghost predicate VisitLoopInv(c: multiset<Key>, m: NgramMap, stats: seq<nat>, remaining: multiset<Key>, acc: seq<nat>) {
    && |stats| == StatsSize && |acc| == StatsSize && remaining <= c
    && forall i :: 0 <= i < StatsSize ==> acc[i] + VisitSum(remaining, c, m, i) == stats[i] + VisitSum(c, c, m, i)
  }

  lemma VisitMatchStep(c: multiset<Key>, m: NgramMap, stats: seq<nat>, remaining: multiset<Key>, acc: seq<nat>, g: Key)
    requires VisitLoopInv(c, m, stats, remaining, acc) && g in remaining && Orders(c)
    ensures 1 <= |g| <= Order
    ensures VisitLoopInv(c, m, stats, remaining - multiset{g}, AddShare(acc, g, c[g], RefCount(m, g)))
  {
    forall i | 0 <= i < StatsSize
      ensures AddShare(acc, g, c[g], RefCount(m, g))[i] + VisitSum(remaining - multiset{g}, c, m, i) == stats[i] + VisitSum(c, c, m, i)
    {
      VisitSumPick(remaining, c, m, i, g);
    }
  }

  lemma VisitMatchFinish(refs: seq<NgramMap>, s: nat, c: multiset<Key>, stats: seq<nat>, acc: seq<nat>)
    requires s < |refs| && c != multiset{} && VisitLoopInv(c, refs[s], stats, multiset{}, acc)
    ensures MatchStatsAsWritten(refs, s, c, stats) == Ok(acc)
  {
    var want := MatchStatsAsWritten(refs, s, c, stats).value;
    forall i | 0 <= i < StatsSize ensures acc[i] == want[i] {
      assert VisitSum(multiset{}, c, refs[s], i) == 0;
      assert want[i] == stats[i] + VisitSum(c, c, refs[s], i);
    }
    assert acc == want;
  }

  // ---------------------------------------------------------------------
  // The two loops of UpdateState
  // ---------------------------------------------------------------------

  /**
   * The left loop stands at slot wi with childi children entered and
   * has collected `left`: with the words still pending it gives `start`
   * followed by the flattened slots, and it stops growing at Order-1
   * words.
   */
  ghost predicate LeftLoop(words: seq<Option<Entry>>, lefts: seq<seq<Entry>>, start: seq<Entry>, left: seq<Entry>,
                           wi: nat, childi: nat, ctx: Option<seq<Entry>>, contexti: nat) {
    && NullCount(words) == |lefts|
    && LeftWalk(words, lefts, wi, childi, ctx, contexti)
    && left + LeftPending(words, lefts, wi, childi, ctx, contexti) == start + Splice(words, lefts)
    && (|left| <= Order - 1 || left == start)
    && (|start| >= Order - 1 ==> left == start)
  }

  lemma LeftLoopWord(words: seq<Option<Entry>>, lefts: seq<seq<Entry>>, start: seq<Entry>, left: seq<Entry>, wi: nat, childi: nat)
    requires LeftLoop(words, lefts, start, left, wi, childi, None, 0) && |left| < Order - 1 && wi < |words| && words[wi].Some?
    ensures LeftLoop(words, lefts, start, left + [words[wi].value], wi + 1, childi, None, 0)
  {
    LeftWord(words, lefts, wi, childi);
    ConcatAssoc(left, [words[wi].value], LeftPending(words, lefts, wi + 1, childi, None, 0));
  }

  lemma LeftLoopEnter(words: seq<Option<Entry>>, lefts: seq<seq<Entry>>, start: seq<Entry>, left: seq<Entry>, wi: nat, childi: nat, contexti: nat)
    requires LeftLoop(words, lefts, start, left, wi, childi, None, contexti) && wi < |words| && words[wi].None?
    ensures childi < |lefts| && LeftLoop(words, lefts, start, left, wi, childi + 1, Some(lefts[childi]), 0)
  {
    LeftEnter(words, lefts, wi, childi, contexti);
  }

  lemma LeftLoopPush(words: seq<Option<Entry>>, lefts: seq<seq<Entry>>, start: seq<Entry>, left: seq<Entry>, wi: nat, childi: nat, ctx: seq<Entry>, contexti: nat)
    requires LeftLoop(words, lefts, start, left, wi, childi, Some(ctx), contexti) && |left| < Order - 1 && contexti < |ctx|
    ensures LeftLoop(words, lefts, start, left + [ctx[contexti]], wi, childi, Some(ctx), contexti + 1)
  {
    LeftPush(words, lefts, wi, childi, ctx, contexti);
    ConcatAssoc(left, [ctx[contexti]], LeftPending(words, lefts, wi, childi, Some(ctx), contexti + 1));
  }

  lemma LeftLoopLeave(words: seq<Option<Entry>>, lefts: seq<seq<Entry>>, start: seq<Entry>, left: seq<Entry>, wi: nat, childi: nat, ctx: seq<Entry>, contexti: nat)
    requires LeftLoop(words, lefts, start, left, wi, childi, Some(ctx), contexti) && contexti >= |ctx|
    ensures LeftLoop(words, lefts, start, left, wi + 1, childi, None, 0)
  {
    LeftLeave(words, lefts, wi, childi, ctx, contexti);
  }

  lemma LeftLoopDone(words: seq<Option<Entry>>, lefts: seq<seq<Entry>>, start: seq<Entry>, left: seq<Entry>, wi: nat, childi: nat, ctx: Option<seq<Entry>>, contexti: nat)
    requires LeftLoop(words, lefts, start, left, wi, childi, ctx, contexti) && (|left| >= Order - 1 || wi >= |words|)
    ensures left == LeftAfter(start, Splice(words, lefts))
  {
    if wi >= |words| {
      LeftEnd(words, lefts, wi, childi, ctx, contexti);
    }
    CollectResult(start, Splice(words, lefts), left, LeftPending(words, lefts, wi, childi, ctx, contexti));
  }

  /**
   * One pass of the body of the left loop: a word is appended, or a gap
   * is entered (childState becomes the next child's state, kept here as
   * its left context `child`) and read on.
   */
  method LeftStep(words: seq<Option<Entry>>, children: seq<nat>, states: seq<VertexState>, start: seq<Entry>, left: seq<Entry>,
                  wi: nat, childi: nat, child: Option<seq<Entry>>, contexti: nat)
    returns (left': seq<Entry>, wi': nat, childi': nat, child': Option<seq<Entry>>, contexti': nat)
    requires ChildrenIn(children, |states|)
    requires LeftLoop(words, Lefts(children, states), start, left, wi, childi, child, contexti)
    requires |left| < Order - 1 && wi < |words|
    ensures LeftLoop(words, Lefts(children, states), start, left', wi', childi', child', contexti')
    ensures wi < wi' || (wi' == wi && |left| < |left'|)
  {
    var word := words[wi];
    if word.Some? {
      LeftLoopWord(words, Lefts(children, states), start, left, wi, childi);
      left', wi', childi', child', contexti' := left + [word.value], wi + 1, childi, None, 0;
    } else if child.None? {
      left', wi', childi', child', contexti' := LeftEnterGap(words, children, states, start, left, wi, childi, contexti);
    } else {
      left', wi', childi', child', contexti' := LeftInChild(words, children, states, start, left, wi, childi, child.value, contexti);
    }
  }

  /** At a gap: the next child is entered at the start of its left context. */
  method LeftEnterGap(words: seq<Option<Entry>>, children: seq<nat>, states: seq<VertexState>, start: seq<Entry>, left: seq<Entry>,
                      wi: nat, childi: nat, contexti: nat)
    returns (left': seq<Entry>, wi': nat, childi': nat, child': Option<seq<Entry>>, contexti': nat)
    requires ChildrenIn(children, |states|)
    requires LeftLoop(words, Lefts(children, states), start, left, wi, childi, None, contexti)
    requires |left| < Order - 1 && wi < |words| && words[wi].None?
    ensures LeftLoop(words, Lefts(children, states), start, left', wi', childi', child', contexti')
    ensures wi < wi' || (wi' == wi && |left| < |left'|)
  {
    LeftLoopEnter(words, Lefts(children, states), start, left, wi, childi, contexti);
    left', wi', childi', child', contexti' := LeftInChild(words, children, states, start, left, wi, childi + 1, Lefts(children, states)[childi], 0);
  }

  /** Inside a child: its next context word is appended, or, past its end, the gap is left. */
  method LeftInChild(words: seq<Option<Entry>>, children: seq<nat>, states: seq<VertexState>, start: seq<Entry>, left: seq<Entry>,
                     wi: nat, childi: nat, ctx: seq<Entry>, contexti: nat)
    returns (left': seq<Entry>, wi': nat, childi': nat, child': Option<seq<Entry>>, contexti': nat)
    requires ChildrenIn(children, |states|)
    requires LeftLoop(words, Lefts(children, states), start, left, wi, childi, Some(ctx), contexti)
    requires |left| < Order - 1
    ensures LeftLoop(words, Lefts(children, states), start, left', wi', childi', child', contexti')
    ensures wi < wi' || (wi' == wi && |left| < |left'|)
  {
    if contexti < |ctx| {
      left', wi', childi', child', contexti' := LeftContextWord(words, children, states, start, left, wi, childi, ctx, contexti);
    } else {
      left', wi', childi', child', contexti' := LeftChildEnd(words, children, states, start, left, wi, childi, ctx, contexti);
    }
  }

  method LeftContextWord(words: seq<Option<Entry>>, children: seq<nat>, states: seq<VertexState>, start: seq<Entry>, left: seq<Entry>,
                         wi: nat, childi: nat, ctx: seq<Entry>, contexti: nat)
    returns (left': seq<Entry>, wi': nat, childi': nat, child': Option<seq<Entry>>, contexti': nat)
    requires ChildrenIn(children, |states|)
    requires LeftLoop(words, Lefts(children, states), start, left, wi, childi, Some(ctx), contexti)
    requires |left| < Order - 1 && contexti < |ctx|
    ensures LeftLoop(words, Lefts(children, states), start, left', wi', childi', child', contexti')
    ensures wi' == wi && left' == left + [ctx[contexti]]
  {
    LeftLoopPush(words, Lefts(children, states), start, left, wi, childi, ctx, contexti);
    left', wi', childi', child', contexti' := left + [ctx[contexti]], wi, childi, Some(ctx), contexti + 1;
  }

  method LeftChildEnd(words: seq<Option<Entry>>, children: seq<nat>, states: seq<VertexState>, start: seq<Entry>, left: seq<Entry>,
                      wi: nat, childi: nat, ctx: seq<Entry>, contexti: nat)
    returns (left': seq<Entry>, wi': nat, childi': nat, child': Option<seq<Entry>>, contexti': nat)
    requires ChildrenIn(children, |states|)
    requires LeftLoop(words, Lefts(children, states), start, left, wi, childi, Some(ctx), contexti)
    requires contexti >= |ctx|
    ensures LeftLoop(words, Lefts(children, states), start, left', wi', childi', child', contexti')
    ensures wi' == wi + 1 && left' == left
  {
    LeftLoopLeave(words, Lefts(children, states), start, left, wi, childi, ctx, contexti);
    left', wi', childi', child', contexti' := left, wi + 1, childi, None, 0;
  }

  /**
   * The left loop of UpdateState: the words of the edge, each gap
   * replaced by its child's left context, appended to `start` while it
   * holds fewer than Order-1 words.
   */
  method CollectLeft(words: seq<Option<Entry>>, children: seq<nat>, states: seq<VertexState>, start: seq<Entry>) returns (left: seq<Entry>)
    requires NullCount(words) == |children| && ChildrenIn(children, |states|)
    ensures left == LeftAfter(start, Splice(words, Lefts(children, states)))
  {
    left := start;
    var wi, childi, contexti := 0, 0, 0;
    var child: Option<seq<Entry>> := None;
    LeftStart(words, Lefts(children, states));
    while |left| < Order - 1 && wi < |words|
      invariant LeftLoop(words, Lefts(children, states), start, left, wi, childi, child, contexti)
      decreases |words| - wi, Order - 1 - |left|
    {
      left, wi, childi, child, contexti := LeftStep(words, children, states, start, left, wi, childi, child, contexti);
    }
    LeftLoopDone(words, Lefts(children, states), start, left, wi, childi, child, contexti);
  }

  /** The right loop's counterpart of LeftLoop, collecting last word first. */
  ghost predicate RightLoop(words: seq<Option<Entry>>, rights: seq<seq<Entry>>, start: seq<Entry>, right: seq<Entry>,
                            wi: int, childi: int, ctx: Option<seq<Entry>>, contexti: int) {
    && NullCount(words) == |rights|
    && RightWalk(words, rights, wi, childi, ctx, contexti)
    && right + RightPending(words, rights, wi, childi, ctx, contexti) == start + Reverse(Splice(words, rights))
    && (|right| <= Order - 1 || right == start)
    && (|start| >= Order - 1 ==> right == start)
  }

  lemma RightLoopWord(words: seq<Option<Entry>>, rights: seq<seq<Entry>>, start: seq<Entry>, right: seq<Entry>, wi: int, childi: int)
    requires RightLoop(words, rights, start, right, wi, childi, None, 0) && |right| < Order - 1 && 0 <= wi && words[wi].Some?
    ensures RightLoop(words, rights, start, right + [words[wi].value], wi - 1, childi, None, 0)
  {
    RightWord(words, rights, wi, childi);
    ConcatAssoc(right, [words[wi].value], RightPending(words, rights, wi - 1, childi, None, 0));
  }

  lemma RightLoopEnter(words: seq<Option<Entry>>, rights: seq<seq<Entry>>, start: seq<Entry>, right: seq<Entry>, wi: int, childi: int, contexti: int)
    requires RightLoop(words, rights, start, right, wi, childi, None, contexti) && 0 <= wi && words[wi].None?
    ensures 0 <= childi < |rights| && RightLoop(words, rights, start, right, wi, childi - 1, Some(rights[childi]), |rights[childi]| - 1)
  {
    RightEnter(words, rights, wi, childi, contexti);
  }

  lemma RightLoopPush(words: seq<Option<Entry>>, rights: seq<seq<Entry>>, start: seq<Entry>, right: seq<Entry>, wi: int, childi: int, ctx: seq<Entry>, contexti: int)
    requires RightLoop(words, rights, start, right, wi, childi, Some(ctx), contexti) && |right| < Order - 1 && 0 <= contexti
    ensures contexti < |ctx| && RightLoop(words, rights, start, right + [ctx[contexti]], wi, childi, Some(ctx), contexti - 1)
  {
    RightPush(words, rights, wi, childi, ctx, contexti);
    ConcatAssoc(right, [ctx[contexti]], RightPending(words, rights, wi, childi, Some(ctx), contexti - 1));
  }

  lemma RightLoopLeave(words: seq<Option<Entry>>, rights: seq<seq<Entry>>, start: seq<Entry>, right: seq<Entry>, wi: int, childi: int, ctx: seq<Entry>, contexti: int)
    requires RightLoop(words, rights, start, right, wi, childi, Some(ctx), contexti) && contexti < 0
    ensures RightLoop(words, rights, start, right, wi - 1, childi, None, 0)
  {
    RightLeave(words, rights, wi, childi, ctx, contexti);
  }

  lemma RightLoopDone(words: seq<Option<Entry>>, rights: seq<seq<Entry>>, start: seq<Entry>, right: seq<Entry>, wi: int, childi: int, ctx: Option<seq<Entry>>, contexti: int)
    requires RightLoop(words, rights, start, right, wi, childi, ctx, contexti) && (|right| >= Order - 1 || wi < 0)
    ensures Reverse(right) == RightAfter(start, Splice(words, rights))
  {
    if wi < 0 {
      RightEnd(words, rights, wi, childi, ctx, contexti);
    }
    CollectResult(start, Reverse(Splice(words, rights)), right, RightPending(words, rights, wi, childi, ctx, contexti));
  }

  /** One pass of the body of the right loop, walking backwards. */
  method RightStep(words: seq<Option<Entry>>, children: seq<nat>, states: seq<VertexState>, start: seq<Entry>, right: seq<Entry>,
                   wi: int, childi: int, child: Option<seq<Entry>>, contexti: int)
    returns (right': seq<Entry>, wi': int, childi': int, child': Option<seq<Entry>>, contexti': int)
    requires ChildrenIn(children, |states|)
    requires RightLoop(words, Rights(children, states), start, right, wi, childi, child, contexti)
    requires |right| < Order - 1 && wi >= 0
    ensures RightLoop(words, Rights(children, states), start, right', wi', childi', child', contexti')
    ensures wi' < wi || (wi' == wi && |right| < |right'|)
  {
    var word := words[wi];
    if word.Some? {
      RightLoopWord(words, Rights(children, states), start, right, wi, childi);
      right', wi', childi', child', contexti' := right + [word.value], wi - 1, childi, None, 0;
    } else if child.None? {
      right', wi', childi', child', contexti' := RightEnterGap(words, children, states, start, right, wi, childi, contexti);
    } else {
      right', wi', childi', child', contexti' := RightInChild(words, children, states, start, right, wi, childi, child.value, contexti);
    }
  }

  /** At a gap: the next child (counting backwards) is entered at the end of its right context. */
  method RightEnterGap(words: seq<Option<Entry>>, children: seq<nat>, states: seq<VertexState>, start: seq<Entry>, right: seq<Entry>,
                       wi: int, childi: int, contexti: int)
    returns (right': seq<Entry>, wi': int, childi': int, child': Option<seq<Entry>>, contexti': int)
    requires ChildrenIn(children, |states|)
    requires RightLoop(words, Rights(children, states), start, right, wi, childi, None, contexti)
    requires |right| < Order - 1 && 0 <= wi && words[wi].None?
    ensures RightLoop(words, Rights(children, states), start, right', wi', childi', child', contexti')
    ensures wi' < wi || (wi' == wi && |right| < |right'|)
  {
    RightLoopEnter(words, Rights(children, states), start, right, wi, childi, contexti);
    var ctx := Rights(children, states)[childi];
    right', wi', childi', child', contexti' := RightInChild(words, children, states, start, right, wi, childi - 1, ctx, |ctx| - 1);
  }

  /** Inside a child: its previous context word is appended, or, past its start, the gap is left. */
  method RightInChild(words: seq<Option<Entry>>, children: seq<nat>, states: seq<VertexState>, start: seq<Entry>, right: seq<Entry>,
                      wi: int, childi: int, ctx: seq<Entry>, contexti: int)
    returns (right': seq<Entry>, wi': int, childi': int, child': Option<seq<Entry>>, contexti': int)
    requires ChildrenIn(children, |states|)
    requires RightLoop(words, Rights(children, states), start, right, wi, childi, Some(ctx), contexti)
    requires |right| < Order - 1
    ensures RightLoop(words, Rights(children, states), start, right', wi', childi', child', contexti')
    ensures wi' < wi || (wi' == wi && |right| < |right'|)
  {
    if contexti >= 0 {
      right', wi', childi', child', contexti' := RightContextWord(words, children, states, start, right, wi, childi, ctx, contexti);
    } else {
      right', wi', childi', child', contexti' := RightChildEnd(words, children, states, start, right, wi, childi, ctx, contexti);
    }
  }

  method RightContextWord(words: seq<Option<Entry>>, children: seq<nat>, states: seq<VertexState>, start: seq<Entry>, right: seq<Entry>,
                          wi: int, childi: int, ctx: seq<Entry>, contexti: int)
    returns (right': seq<Entry>, wi': int, childi': int, child': Option<seq<Entry>>, contexti': int)
    requires ChildrenIn(children, |states|)
    requires RightLoop(words, Rights(children, states), start, right, wi, childi, Some(ctx), contexti)
    requires |right| < Order - 1 && contexti >= 0
    ensures RightLoop(words, Rights(children, states), start, right', wi', childi', child', contexti')
    ensures wi' == wi && contexti < |ctx| && right' == right + [ctx[contexti]]
  {
    RightLoopPush(words, Rights(children, states), start, right, wi, childi, ctx, contexti);
    right', wi', childi', child', contexti' := right + [ctx[contexti]], wi, childi, Some(ctx), contexti - 1;
  }

  method RightChildEnd(words: seq<Option<Entry>>, children: seq<nat>, states: seq<VertexState>, start: seq<Entry>, right: seq<Entry>,
                       wi: int, childi: int, ctx: seq<Entry>, contexti: int)
    returns (right': seq<Entry>, wi': int, childi': int, child': Option<seq<Entry>>, contexti': int)
    requires ChildrenIn(children, |states|)
    requires RightLoop(words, Rights(children, states), start, right, wi, childi, Some(ctx), contexti)
    requires contexti < 0
    ensures RightLoop(words, Rights(children, states), start, right', wi', childi', child', contexti')
    ensures wi' == wi - 1 && right' == right
  {
    RightLoopLeave(words, Rights(children, states), start, right, wi, childi, ctx, contexti);
    right', wi', childi', child', contexti' := right, wi - 1, childi, None, 0;
  }

  /**
   * The right loop of UpdateState: walking backwards from the last slot,
   * each gap replaced by its child's right context read backwards, words
   * are appended to `start` while it holds fewer than Order-1 of them;
   * then the context is reversed.
   */
  method CollectRight(words: seq<Option<Entry>>, children: seq<nat>, states: seq<VertexState>, start: seq<Entry>) returns (right: seq<Entry>)
    requires NullCount(words) == |children| && ChildrenIn(children, |states|)
    ensures right == RightAfter(start, Splice(words, Rights(children, states)))
  {
    right := start;
    var wi: int := |words| - 1;
    var childi: int := |children| - 1;
    var contexti: int := 0;
    var child: Option<seq<Entry>> := None;
    RightStart(words, Rights(children, states));
    while |right| < Order - 1 && wi >= 0
      invariant RightLoop(words, Rights(children, states), start, right, wi, childi, child, contexti)
      decreases wi + 1, Order - 1 - |right|
    {
      right, wi, childi, child, contexti := RightStep(words, children, states, start, right, wi, childi, child, contexti);
    }
    RightLoopDone(words, Rights(children, states), start, right, wi, childi, child, contexti);
    right := Reverse(right);
  }

  /** How many of the slots are words. */
  lemma WordCountStep(words: seq<Option<Entry>>, i: nat)
    requires i < |words|
    ensures NullCount(words[..i + 1]) == NullCount(words[..i]) + (if words[i].None? then 1 else 0)
  {
    assert words[..i + 1][..i] == words[..i];
  }

  /** The children's lengths, one child more. */
  lemma ChildLengthsStep(children: seq<nat>, states: seq<VertexState>, i: nat)
    requires ChildrenIn(children, |states|) && i < |children|
    ensures ChildLengths(children[..i + 1], states) == ChildLengths(children[..i], states) + states[children[i]].targetLength
  {
    assert children[..i + 1][..i] == children[..i];
  }

  /** The children's statistics, one child more. */
  lemma ChildStatsStep(stats: seq<nat>, children: seq<nat>, states: seq<VertexState>, i: nat)
    requires |stats| == StatsSize && ChildrenWritten(children, states) && i < |children|
    ensures ChildrenWritten(children[..i + 1], states) && ChildrenWritten(children[..i], states)
    ensures ChildStats(stats, children[..i + 1], states) == Add(ChildStats(stats, children[..i], states), states[children[i]].bleuStats)
  {
    assert children[..i + 1][..i] == children[..i];
  }

  class HgBleuScorer {
    /** references_: the n-gram counts of the reference sentences. */
    const refCounts: seq<NgramMap>
    /** sentenceId_: the sentence whose references are used. */
    const sentenceId: nat
    /** graph_.IsBoundary: the indices of the sentence boundary words. */
    const boundary: set<nat>
    /** vertexStates_: one state per vertex of the graph. */
    var vertexStates: seq<VertexState>

    /** A scorer with an empty state for each of the graph's vertices. */
    constructor (refCounts: seq<NgramMap>, sentenceId: nat, boundary: set<nat>, vertexCount: nat)
      ensures this.refCounts == refCounts && this.sentenceId == sentenceId && this.boundary == boundary
      ensures vertexStates == EmptyStates(vertexCount)
    {
      this.refCounts := refCounts;
      this.sentenceId := sentenceId;
      this.boundary := boundary;
      vertexStates := EmptyStates(vertexCount);
    }

    /**
     * UpdateMatches: for each distinct n-gram of the counter, its count
     * is added to its order's total and its count clipped by the
     * reference's unclipped count to its order's matched count. The
     * reference is consulted for the first n-gram, so an unknown sentence
     * fails on any non-empty counter.
     */
    method UpdateMatches(counts: multiset<Key>, bleuStats: seq<nat>) returns (r: Result<seq<nat>>)
      requires |bleuStats| == StatsSize && Orders(counts)
      ensures r == MatchStats(refCounts, sentenceId, counts, bleuStats)
    {
      ghost var m := MapAt(refCounts, sentenceId);
      var stats := bleuStats;
      var remaining := Support(counts);
      while remaining != {}
        invariant MatchLoopInv(counts, m, bleuStats, remaining, stats)
        invariant remaining != Support(counts) ==> sentenceId < |refCounts|
        invariant counts == multiset{} ==> stats == bleuStats
        decreases |remaining|
      {
        var g :| g in remaining;
        var count := counts[g];
        var matches := Matches(refCounts, sentenceId, g, false);
        if matches.Err? {
          assert g in counts;
          return Err(matches.error);
        }
        MatchStep(counts, m, bleuStats, remaining, stats, g);
        stats := AddShare(stats, g, count, matches.value);
        remaining := remaining - {g};
      }
      if counts != multiset{} {
        var g :| g in counts;
        assert g in Support(counts);
        MatchFinish(refCounts, sentenceId, counts, bleuStats, stats);
      }
      return Ok(stats);
    }

    /**
     * The UpdateMatches loop as written: it visits every element of the
     * multiset counter, so an n-gram occurring k times adds its share k
     * times.
     */
    method UpdateMatchesAsWritten(counts: multiset<Key>, bleuStats: seq<nat>) returns (r: Result<seq<nat>>)
      requires |bleuStats| == StatsSize && Orders(counts)
      ensures r == MatchStatsAsWritten(refCounts, sentenceId, counts, bleuStats)
    {
      ghost var m := MapAt(refCounts, sentenceId);
      var stats := bleuStats;
      var remaining := counts;
      while remaining != multiset{}
        invariant VisitLoopInv(counts, m, bleuStats, remaining, stats)
        invariant remaining != counts ==> sentenceId < |refCounts|
        invariant counts == multiset{} ==> stats == bleuStats
        decreases |remaining|
      {
        var g :| g in remaining;
        var count := counts[g];
        var matches := Matches(refCounts, sentenceId, g, false);
        if matches.Err? {
          return Err(matches.error);
        }
        VisitMatchStep(counts, m, bleuStats, remaining, stats, g);
        stats := AddShare(stats, g, count, matches.value);
        remaining := remaining - multiset{g};
      }
      if counts != multiset{} {
        VisitMatchFinish(refCounts, sentenceId, counts, bleuStats, stats);
      }
      return Ok(stats);
    }

    /** GetTargetLength: the edge's words plus the stored lengths of its children. */
    method GetTargetLength(edge: Edge) returns (targetLength: nat)
      requires ChildrenIn(edge.children, |vertexStates|)
      ensures targetLength == TargetLength(edge, vertexStates)
    {
      targetLength := 0;
      for i := 0 to |edge.words|
        invariant targetLength == i - NullCount(edge.words[..i])
      {
        WordCountStep(edge.words, i);
        if edge.words[i].Some? {
          targetLength := targetLength + 1;
        }
      }
      assert edge.words[..|edge.words|] == edge.words;
      for i := 0 to |edge.children|
        invariant targetLength == |edge.words| - NullCount(edge.words) + ChildLengths(edge.children[..i], vertexStates)
      {
        ChildLengthsStep(edge.children, vertexStates, i);
        targetLength := targetLength + vertexStates[edge.children[i]].targetLength;
      }
      assert edge.children[..|edge.children|] == edge.children;
    }

    /**
     * Score: the edge's statistics added to `bleuStats` (the matches of
     * the n-grams its walk counts, then each child's stored statistics)
     * and the BLEU of those statistics for the head vertex and the edge's
     * target length.
     */
    method Score(edge: Edge, head: nat, bleuStats: seq<nat>, bleu: Bleu) returns (r: Result<(real, seq<nat>)>)
      requires Aligned(edge) && ChildrenWritten(edge.children, vertexStates) && |bleuStats| == StatsSize
      ensures r.Err? <==> EdgeStats(refCounts, sentenceId, edge, vertexStates, boundary, bleuStats).Err?
      ensures r.Err? ==> r.error == EdgeStats(refCounts, sentenceId, edge, vertexStates, boundary, bleuStats).error
      ensures r.Ok? ==>
                && r.value.1 == EdgeStats(refCounts, sentenceId, edge, vertexStates, boundary, bleuStats).value
                && r.value.0 == bleu(head, r.value.1, TargetLength(edge, vertexStates))
    {
      var ngramCounts := CountEdge(edge, vertexStates, boundary);
      forall g | g in ngramCounts ensures 1 <= |g| <= Order {
        CountedKeys(edge, vertexStates, boundary, g);
      }
      var own := UpdateMatches(ngramCounts, bleuStats);
      if own.Err? {
        return Err(own.error);
      }
      var stats := own.value;
      for i := 0 to |edge.children|
        invariant stats == ChildStats(own.value, edge.children[..i], vertexStates)
      {
        ChildStatsStep(own.value, edge.children, vertexStates, i);
        stats := Add(stats, vertexStates[edge.children[i]].bleuStats);
      }
      assert edge.children[..|edge.children|] == edge.children;
      var targetLength := GetTargetLength(edge);
      return Ok((bleu(head, stats, targetLength), stats));
    }

    /**
     * UpdateState: the state of `vertexId` gets the contexts extended from
     * the winning edge, the edge's target length and the winner's
     * statistics; no other state changes.
     */
    method UpdateState(winnerEdge: Edge, vertexId: nat, bleuStats: seq<nat>)
      requires Aligned(winnerEdge) && ChildrenIn(winnerEdge.children, |vertexStates|) && vertexId < |vertexStates|
      requires forall i :: 0 <= i < |winnerEdge.children| ==> winnerEdge.children[i] != vertexId
      modifies this
      ensures vertexStates == old(vertexStates)[vertexId := NewState(old(vertexStates)[vertexId], winnerEdge, old(vertexStates), bleuStats)]
    {
      var vertexState := vertexStates[vertexId];
      var left := CollectLeft(winnerEdge.words, winnerEdge.children, vertexStates, vertexState.leftContext);
      var right := CollectRight(winnerEdge.words, winnerEdge.children, vertexStates, vertexState.rightContext);
      var targetLength := GetTargetLength(winnerEdge);
      vertexStates := vertexStates[vertexId := VertexState(left, right, targetLength, bleuStats)];
    }
  }
}
