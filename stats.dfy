/**
 * The BLEU statistics of HgBleuScorer (mert/ForestRescore.cpp): for every
 * n-gram order 1..Order a matched count (slot 2(o-1)) and a total count
 * (slot 2(o-1)+1). An edge adds, for each distinct n-gram it counts, the
 * n-gram's count to the total and the count clipped by the reference's
 * unclipped count to the matched slot, and then its children's stored
 * statistics.
 */
module BleuStats {
  import opened Wrappers
  import opened Ngram
  import opened Hypergraph
  import opened References
  import opened EdgeStream

  /** The statistics of a fresh valarray<size_t>(2 * Order): all zero. */
  const Zeros: seq<nat> := [0, 0, 0, 0, 0, 0, 0, 0]

  /** valarray +=, slot by slot. */
  function Add(a: seq<nat>, b: seq<nat>): (r: seq<nat>)
    requires |a| == |b|
    ensures |r| == |a| && forall i :: 0 <= i < |a| ==> r[i] == a[i] + b[i]
  {
    seq(|a|, i requires 0 <= i < |a| => a[i] + b[i])
  }

  /** The matched count of order n + 1. */
  function MatchedAt(stats: seq<nat>, n: nat): nat
    requires |stats| == StatsSize && n < Order
  {
    stats[2 * n]
  }

  /** The total count of order n + 1. */
  function TotalAt(stats: seq<nat>, n: nat): nat
    requires |stats| == StatsSize && n < Order
  {
    stats[2 * n + 1]
  }

  /** For every order, no more n-grams matched than counted. */
  predicate MatchedBelowTotal(stats: seq<nat>) {
    |stats| == StatsSize && forall n :: 0 <= n < Order ==> MatchedAt(stats, n) <= TotalAt(stats, n)
  }

  /** The sum of the total counts of the orders 1..n. */
  function TotalsUpTo(stats: seq<nat>, n: nat): nat
    requires |stats| == StatsSize && n <= Order
  {
    if n == 0 then 0 else TotalsUpTo(stats, n - 1) + TotalAt(stats, n - 1)
  }

  // ---------------------------------------------------------------------
  // One n-gram's share of the statistics
  // ---------------------------------------------------------------------

  /**
   * What an n-gram `g` with `count` occurrences and reference count `ref`
   * adds to slot `i`: count to its order's total, min(count, ref) to its
   * order's matched count, nothing elsewhere.
   */
  function Slot(g: Key, i: nat, count: nat, ref: nat): nat {
    if 0 < |g| && i == 2 * (|g| - 1) + 1 then count
    else if 0 < |g| && i == 2 * (|g| - 1) then Min(count, ref)
    else 0
  }

  /** The unclipped reference count of `g`, 0 when the reference does not have it. */
  function RefCount(m: NgramMap, g: Key): nat {
    Lookup(m, g).1
  }

  /** The sum of the shares in slot `i` of the distinct n-grams `keys` of the counter `c`. */
  ghost function KeySum(keys: set<Key>, c: multiset<Key>, m: NgramMap, i: nat): nat
    decreases |keys|
  {
    if keys == {} then 0
    else
      var g :| g in keys;
      Slot(g, i, c[g], RefCount(m, g)) + KeySum(keys - {g}, c, m, i)
  }

  /** The sum does not depend on which n-gram is taken first. */
  lemma {:induction false} KeySumPick(keys: set<Key>, c: multiset<Key>, m: NgramMap, i: nat, g: Key)
    requires g in keys
    ensures KeySum(keys, c, m, i) == Slot(g, i, c[g], RefCount(m, g)) + KeySum(keys - {g}, c, m, i)
    decreases |keys|
  {
    var h :| h in keys && KeySum(keys, c, m, i) == Slot(h, i, c[h], RefCount(m, h)) + KeySum(keys - {h}, c, m, i);
    if h != g {
      KeySumPick(keys - {h}, c, m, i, g);
      KeySumPick(keys - {g}, c, m, i, h);
      assert keys - {h} - {g} == keys - {g} - {h};
    }
  }

  /** Matched never exceeds total, summed over any set of n-grams. */
  lemma {:induction false} KeySumBelow(keys: set<Key>, c: multiset<Key>, m: NgramMap, n: nat)
    ensures KeySum(keys, c, m, 2 * n) <= KeySum(keys, c, m, 2 * n + 1)
    decreases |keys|
  {
    if keys != {} {
      var g :| g in keys;
      KeySumPick(keys, c, m, 2 * n, g);
      KeySumPick(keys, c, m, 2 * n + 1, g);
      KeySumBelow(keys - {g}, c, m, n);
    }
  }

  /** The number of occurrences in `c` of the n-grams `keys`. */
  ghost function Occurrences(keys: set<Key>, c: multiset<Key>): nat
    decreases |keys|
  {
    if keys == {} then 0
    else
      var g :| g in keys;
      c[g] + Occurrences(keys - {g}, c)
  }

  lemma {:induction false} OccurrencesPick(keys: set<Key>, c: multiset<Key>, g: Key)
    requires g in keys
    ensures Occurrences(keys, c) == c[g] + Occurrences(keys - {g}, c)
    decreases |keys|
  {
    var h :| h in keys && Occurrences(keys, c) == c[h] + Occurrences(keys - {h}, c);
    if h != g {
      OccurrencesPick(keys - {h}, c, g);
      OccurrencesPick(keys - {g}, c, h);
      assert keys - {h} - {g} == keys - {g} - {h};
    }
  }

  /** Counters that agree on `keys` have the same occurrences there. */
  lemma {:induction false} OccurrencesAgree(keys: set<Key>, c: multiset<Key>, c': multiset<Key>)
    requires forall g :: g in keys ==> c[g] == c'[g]
    ensures Occurrences(keys, c) == Occurrences(keys, c')
    decreases |keys|
  {
    if keys != {} {
      var g :| g in keys;
      OccurrencesPick(keys, c, g);
      OccurrencesPick(keys, c', g);
      OccurrencesAgree(keys - {g}, c, c');
    }
  }

  /** Summed over its distinct n-grams, a counter's counts give its size. */
  lemma {:induction false} OccurrencesSize(c: multiset<Key>)
    ensures Occurrences(Support(c), c) == |c|
    decreases |c|
  {
    if c != multiset{} {
      var g :| g in c;
      var c' := c[g := 0];
      assert Support(c') == Support(c) - {g};
      OccurrencesPick(Support(c), c, g);
      OccurrencesAgree(Support(c) - {g}, c, c');
      OccurrencesSize(c');
    }
  }

  /** The total slots of orders 1..n that one n-gram adds to. */
  function KeyTotals(g: Key, count: nat, ref: nat, n: nat): (r: nat)
    ensures 1 <= |g| <= n ==> r == count
    ensures |g| == 0 || n < |g| ==> r == 0
  {
    if n == 0 then 0 else KeyTotals(g, count, ref, n - 1) + Slot(g, 2 * (n - 1) + 1, count, ref)
  }

  /** The increments of the total slots of orders 1..n. */
  ghost function TotalSums(keys: set<Key>, c: multiset<Key>, m: NgramMap, n: nat): nat {
    if n == 0 then 0 else TotalSums(keys, c, m, n - 1) + KeySum(keys, c, m, 2 * (n - 1) + 1)
  }

  lemma {:induction false} TotalSumsPick(keys: set<Key>, c: multiset<Key>, m: NgramMap, n: nat, g: Key)
    requires g in keys
    ensures TotalSums(keys, c, m, n) == KeyTotals(g, c[g], RefCount(m, g), n) + TotalSums(keys - {g}, c, m, n)
  {
    if n > 0 {
      TotalSumsPick(keys, c, m, n - 1, g);
      KeySumPick(keys, c, m, 2 * (n - 1) + 1, g);
    }
  }

  lemma {:induction false} TotalSumsNone(c: multiset<Key>, m: NgramMap, n: nat)
    ensures TotalSums({}, c, m, n) == 0
  {
    if n > 0 {
      TotalSumsNone(c, m, n - 1);
    }
  }

  /** Over n-grams of orders 1..Order, the totals count every occurrence once. */
  lemma {:induction false} TotalSumsOccurrences(keys: set<Key>, c: multiset<Key>, m: NgramMap)
    requires forall g :: g in keys ==> 1 <= |g| <= Order
    ensures TotalSums(keys, c, m, Order) == Occurrences(keys, c)
    decreases |keys|
  {
    if keys == {} {
      TotalSumsNone(c, m, Order);
    } else {
      var g :| g in keys;
      TotalSumsPick(keys, c, m, Order, g);
      OccurrencesPick(keys, c, g);
      TotalSumsOccurrences(keys - {g}, c, m);
    }
  }

  // ---------------------------------------------------------------------
  // UpdateMatches
  // ---------------------------------------------------------------------

  /** Every n-gram of the counter has an order in 1..Order, so its slots exist. */
  predicate Orders(c: multiset<Key>) {
    forall g :: g in c ==> 1 <= |g| <= Order
  }

  /**
   * UpdateMatches on the reference maps `refs` of sentence `s`: the
   * counter's shares added to `stats`. The reference is consulted only
   * when the counter is not empty, and then sentence `s` must exist.
   */
  ghost function MatchStats(refs: seq<NgramMap>, s: nat, c: multiset<Key>, stats: seq<nat>): Result<seq<nat>>
    requires |stats| == StatsSize
  {
    if c == multiset{} then Ok(stats)
    else if s >= |refs| then Err(SentenceOutOfRange)
    else Ok(seq(StatsSize, i requires 0 <= i < StatsSize => stats[i] + KeySum(Support(c), c, refs[s], i)))
  }

  /** An empty counter adds nothing to any slot. */
  lemma KeySumEmpty(c: multiset<Key>, m: NgramMap, i: nat)
    requires c == multiset{}
    ensures KeySum(Support(c), c, m, i) == 0
  {
    assert Support(c) == {};
  }

  /** UpdateMatches keeps every order's matched count at most its total. */
  lemma MatchStatsBelow(refs: seq<NgramMap>, s: nat, c: multiset<Key>, stats: seq<nat>)
    requires MatchedBelowTotal(stats)
    requires MatchStats(refs, s, c, stats).Ok?
    ensures MatchedBelowTotal(MatchStats(refs, s, c, stats).value)
  {
    if c != multiset{} {
      var r := MatchStats(refs, s, c, stats).value;
      forall n | 0 <= n < Order ensures MatchedAt(r, n) <= TotalAt(r, n) {
        KeySumBelow(Support(c), c, refs[s], n);
        assert MatchedAt(stats, n) <= TotalAt(stats, n);
        assert r[2 * n] == stats[2 * n] + KeySum(Support(c), c, refs[s], 2 * n);
        assert r[2 * n + 1] == stats[2 * n + 1] + KeySum(Support(c), c, refs[s], 2 * n + 1);
      }
    }
  }

  lemma {:induction false} TotalsUpToSums(refs: seq<NgramMap>, s: nat, c: multiset<Key>, stats: seq<nat>, n: nat)
    requires |stats| == StatsSize && c != multiset{} && s < |refs| && n <= Order
    ensures TotalsUpTo(MatchStats(refs, s, c, stats).value, n) == TotalsUpTo(stats, n) + TotalSums(Support(c), c, refs[s], n)
  {
    if n > 0 {
      TotalsUpToSums(refs, s, c, stats, n - 1);
    }
  }

  /** UpdateMatches adds to the total slots exactly the number of n-grams counted. */
  lemma MatchStatsTotals(refs: seq<NgramMap>, s: nat, c: multiset<Key>, stats: seq<nat>)
    requires |stats| == StatsSize && Orders(c)
    requires MatchStats(refs, s, c, stats).Ok?
    ensures TotalsUpTo(MatchStats(refs, s, c, stats).value, Order) == TotalsUpTo(stats, Order) + |c|
  {
    if c == multiset{} {
    } else {
      TotalsUpToSums(refs, s, c, stats, Order);
      TotalSumsOccurrences(Support(c), c, refs[s]);
      OccurrencesSize(c);
    }
  }

  // ---------------------------------------------------------------------
  // UpdateMatches as written
  // ---------------------------------------------------------------------

  /**
   * The loop at mert/ForestRescore.cpp:113-119 iterates over every
   * element of the multiset counter, so an n-gram that occurs k times
   * adds its share k times. `done` holds the elements visited so far.
   */
  ghost function VisitSum(done: multiset<Key>, c: multiset<Key>, m: NgramMap, i: nat): nat
    decreases |done|
  {
    if done == multiset{} then 0
    else
      var g :| g in done;
      Slot(g, i, c[g], RefCount(m, g)) + VisitSum(done - multiset{g}, c, m, i)
  }

  lemma {:induction false} VisitSumPick(done: multiset<Key>, c: multiset<Key>, m: NgramMap, i: nat, g: Key)
    requires g in done
    ensures VisitSum(done, c, m, i) == Slot(g, i, c[g], RefCount(m, g)) + VisitSum(done - multiset{g}, c, m, i)
    decreases |done|, 1
  {
    var h :| h in done && VisitSum(done, c, m, i) == Slot(h, i, c[h], RefCount(m, h)) + VisitSum(done - multiset{h}, c, m, i);
    if h != g {
      VisitSumSwap(done, c, m, i, g, h);
    }
  }

  /** Taking `g` first or `h` first gives the same sum. */
  lemma {:induction false} VisitSumSwap(done: multiset<Key>, c: multiset<Key>, m: NgramMap, i: nat, g: Key, h: Key)
    requires g in done && h in done && g != h
    ensures Slot(h, i, c[h], RefCount(m, h)) + VisitSum(done - multiset{h}, c, m, i)
         == Slot(g, i, c[g], RefCount(m, g)) + VisitSum(done - multiset{g}, c, m, i)
    decreases |done|, 0
  {
    var dh, dg := done - multiset{h}, done - multiset{g};
    assert g in dh && h in dg;
    VisitSumPick(dh, c, m, i, g);
    VisitSumPick(dg, c, m, i, h);
    assert dh - multiset{g} == dg - multiset{h};
  }

  ghost function MatchStatsAsWritten(refs: seq<NgramMap>, s: nat, c: multiset<Key>, stats: seq<nat>): Result<seq<nat>>
    requires |stats| == StatsSize
  {
    if c == multiset{} then Ok(stats)
    else if s >= |refs| then Err(SentenceOutOfRange)
    else Ok(seq(StatsSize, i requires 0 <= i < StatsSize => stats[i] + VisitSum(c, c, refs[s], i)))
  }

  /**
   * A unigram counted twice, [7, 7] on an edge: as written the unigram
   * total becomes 4 where the edge has 2 unigrams, which the corrected
   * statistics give.
   */
  lemma RepeatedUnigramCountedTwice(refs: seq<NgramMap>)
    requires |refs| > 0
    ensures var c := multiset{[7], [7]};
            && TotalAt(MatchStatsAsWritten(refs, 0, c, Zeros).value, 0) == 4
            && TotalAt(MatchStats(refs, 0, c, Zeros).value, 0) == 2 == |c|
  {
    TwiceAsWritten(refs);
    TwiceCorrected(refs);
  }

  lemma TwiceAsWritten(refs: seq<NgramMap>)
    requires |refs| > 0
    ensures TotalAt(MatchStatsAsWritten(refs, 0, multiset{[7], [7]}, Zeros).value, 0) == 4
  {
    var c := multiset{[7], [7]};
    var g: Key := [7];
    assert c[g] == 2;
    VisitSumPick(c, c, refs[0], 1, g);
    assert c - multiset{g} == multiset{g};
    VisitSumPick(multiset{g}, c, refs[0], 1, g);
    assert multiset{g} - multiset{g} == multiset{};
  }

  lemma TwiceCorrected(refs: seq<NgramMap>)
    requires |refs| > 0
    ensures TotalAt(MatchStats(refs, 0, multiset{[7], [7]}, Zeros).value, 0) == 2 == |multiset{[7], [7]}|
  {
    var c := multiset{[7], [7]};
    var g: Key := [7];
    assert c[g] == 2;
    assert Support(c) == {g};
    KeySumPick({g}, c, refs[0], 1, g);
    assert {g} - {g} == {};
  }

  // ---------------------------------------------------------------------
  // The statistics of an edge
  // ---------------------------------------------------------------------

  /** The children's stored statistics added to `stats`, child after child. */
  function ChildStats(stats: seq<nat>, children: seq<nat>, states: seq<VertexState>): (r: seq<nat>)
    requires |stats| == StatsSize && ChildrenWritten(children, states)
    ensures |r| == StatsSize
  {
    if |children| == 0 then stats
    else Add(ChildStats(stats, children[..|children| - 1], states), states[children[|children| - 1]].bleuStats)
  }

  /**
   * Score's statistics for an edge: the matches of the n-grams its walk
   * counts, added to `stats`, and then every child's stored statistics.
   */
  ghost function EdgeStats(refs: seq<NgramMap>, s: nat, edge: Edge, states: seq<VertexState>, boundary: set<nat>, stats: seq<nat>): Result<seq<nat>>
    requires Aligned(edge) && ChildrenWritten(edge.children, states) && |stats| == StatsSize
  {
    var counted := Run(Events(edge.words, edge.children, states), EmptyWindow, boundary).counted;
    var own := MatchStats(refs, s, counted, stats);
    if own.Err? then own else Ok(ChildStats(own.value, edge.children, states))
  }

  /** Every child's stored statistics keep matched at most total. */
  predicate ChildrenBelow(children: seq<nat>, states: seq<VertexState>)
    requires ChildrenIn(children, |states|)
  {
    forall i :: 0 <= i < |children| ==> MatchedBelowTotal(states[children[i]].bleuStats)
  }

  lemma {:induction false} ChildStatsBelow(stats: seq<nat>, children: seq<nat>, states: seq<VertexState>)
    requires MatchedBelowTotal(stats) && ChildrenWritten(children, states) && ChildrenBelow(children, states)
    ensures MatchedBelowTotal(ChildStats(stats, children, states))
    decreases |children|
  {
    if |children| > 0 {
      var p, c := children[..|children| - 1], children[|children| - 1];
      ChildStatsBelow(stats, p, states);
      var a, b := ChildStats(stats, p, states), states[c].bleuStats;
      forall n | 0 <= n < Order ensures MatchedAt(Add(a, b), n) <= TotalAt(Add(a, b), n) {
        assert MatchedAt(a, n) <= TotalAt(a, n) && MatchedAt(b, n) <= TotalAt(b, n);
      }
    }
  }

  /** Score keeps every order's matched count at most its total. */
  lemma EdgeStatsBelow(refs: seq<NgramMap>, s: nat, edge: Edge, states: seq<VertexState>, boundary: set<nat>, stats: seq<nat>)
    requires Aligned(edge) && ChildrenWritten(edge.children, states) && MatchedBelowTotal(stats)
    requires ChildrenBelow(edge.children, states)
    requires EdgeStats(refs, s, edge, states, boundary, stats).Ok?
    ensures MatchedBelowTotal(EdgeStats(refs, s, edge, states, boundary, stats).value)
  {
    var counted := Run(Events(edge.words, edge.children, states), EmptyWindow, boundary).counted;
    MatchStatsBelow(refs, s, counted, stats);
    ChildStatsBelow(MatchStats(refs, s, counted, stats).value, edge.children, states);
  }

  /**
   * The edge's own n-grams add to the total slots exactly as many as its
   * walk counts; an edge without gaps therefore adds one per n-gram
   * occurrence in its non-boundary words, as a reference line does.
   */
  lemma EdgeStatsOwnTotals(refs: seq<NgramMap>, s: nat, edge: Edge, states: seq<VertexState>, boundary: set<nat>, stats: seq<nat>)
    requires Aligned(edge) && ChildrenWritten(edge.children, states) && |stats| == StatsSize
    requires |edge.children| == 0
    requires EdgeStats(refs, s, edge, states, boundary, stats).Ok?
    ensures TotalsUpTo(EdgeStats(refs, s, edge, states, boundary, stats).value, Order)
         == TotalsUpTo(stats, Order) + |Run(Events(edge.words, edge.children, states), EmptyWindow, boundary).counted|
    ensures Fits(edge.words, [], states)
    ensures forall g :: Run(Events(edge.words, [], states), EmptyWindow, boundary).counted[g] == LineCount(Kept(edge.words, boundary), g)
  {
    var counted := Run(Events(edge.words, edge.children, states), EmptyWindow, boundary).counted;
    forall g | g in counted ensures 1 <= |g| <= Order {
      CountedKeys(edge, states, boundary, g);
    }
    MatchStatsTotals(refs, s, counted, stats);
    forall g ensures Run(Events(edge.words, [], states), EmptyWindow, boundary).counted[g] == LineCount(Kept(edge.words, boundary), g) {
      GapFreeCounts(edge, states, boundary, g);
    }
  }
}
