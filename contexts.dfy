/**
 * What UpdateState (mert/ForestRescore.cpp:244-305) stores for a vertex:
 * the first and the last Order-1 words of the derivation through its
 * winning edge, read off the edge's slots with each gap replaced by the
 * matching child's stored context, and the derivation's length
 * (GetTargetLength). When every child's state summarises the child's
 * derivation, the new state summarises the spliced derivation.
 */
module Contexts {
  import opened Wrappers
  import opened Vocabulary
  import opened Ngram
  import opened Hypergraph
  import opened EdgeStream

  /** The first n elements, or all of them when there are fewer. */
  function Take<T>(s: seq<T>, n: nat): (r: seq<T>)
    ensures |r| == Min(n, |s|) && r == s[..|r|]
  {
    if |s| <= n then s else s[..n]
  }

  /** The last n elements, or all of them when there are fewer. */
  function Last<T>(s: seq<T>, n: nat): (r: seq<T>)
    ensures |r| == Min(n, |s|) && r == s[|s| - |r|..]
  {
    if |s| <= n then s else s[|s| - n..]
  }

  function Reverse<T>(s: seq<T>): (r: seq<T>)
    ensures |r| == |s|
  {
    if |s| == 0 then [] else Reverse(s[1..]) + [s[0]]
  }

  lemma {:induction false} ReverseAppend<T>(a: seq<T>, b: seq<T>)
    ensures Reverse(a + b) == Reverse(b) + Reverse(a)
    decreases |a|
  {
    if |a| == 0 {
      assert a + b == b;
    } else {
      assert (a + b)[1..] == a[1..] + b;
      ReverseAppend(a[1..], b);
    }
  }

  /** Reversing a sequence with one more element at its end puts that element first. */
  lemma ReverseSnoc<T>(s: seq<T>, x: T)
    ensures Reverse(s + [x]) == [x] + Reverse(s)
  {
    ReverseAppend(s, [x]);
    assert [x][1..] == [];
  }

  lemma {:induction false} ReverseIndex<T>(s: seq<T>, i: nat)
    requires i < |s|
    ensures Reverse(s)[i] == s[|s| - 1 - i]
    decreases |s|
  {
    if i < |s| - 1 {
      ReverseIndex(s[1..], i);
    }
  }

  /** Reversing the first n of the reversed sequence gives its last n. */
  lemma ReverseTakeReverse<T>(s: seq<T>, n: nat)
    ensures Reverse(Take(Reverse(s), n)) == Last(s, n)
  {
    var t := Take(Reverse(s), n);
    var l := Last(s, n);
    forall i | 0 <= i < |l| ensures Reverse(t)[i] == l[i] {
      ReverseIndex(t, i);
      ReverseIndex(s, |t| - 1 - i);
    }
  }

  /** A prefix of a concatenation only needs a prefix of each part. */
  lemma TakeConcat<T>(a: seq<T>, b: seq<T>, n: nat)
    ensures Take(a + b, n) == Take(Take(a, n) + Take(b, n), n)
  {
    if |a| < n {
      var l, r := Take(a + b, n), Take(Take(a, n) + Take(b, n), n);
      assert |l| == |r|;
      forall i | 0 <= i < |l| ensures l[i] == r[i] {
        if i >= |a| {
          assert l[i] == b[i - |a|];
        }
      }
    }
  }

  /** A suffix of a concatenation, cut inside the first part or inside the second. */
  lemma DropConcat<T>(x: seq<T>, y: seq<T>, k: nat)
    requires k <= |x| + |y|
    ensures k <= |x| ==> (x + y)[k..] == x[k..] + y
    ensures k >= |x| ==> (x + y)[k..] == y[k - |x|..]
  {
  }

  /** Cutting a suffix of a suffix. */
  lemma DropDrop<T>(x: seq<T>, j: nat, k: nat)
    requires j + k <= |x|
    ensures x[j..][k..] == x[j + k..]
  {
  }

  /** A suffix of a concatenation only needs a suffix of each part. */
  lemma LastConcat<T>(a: seq<T>, b: seq<T>, n: nat)
    ensures Last(a + b, n) == Last(Last(a, n) + Last(b, n), n)
  {
    if |b| >= n {
      LastInSecond(a, b, n);
      LastInSecond(Last(a, n), Last(b, n), n);
    } else if |a| + |b| > n {
      LastAcross(a, b, n);
      LastAcross(Last(a, n), b, n);
      var la := Last(a, n);
      DropDrop(a, |a| - |la|, |la| + |b| - n);
    } else {
      assert Last(a, n) == a && Last(b, n) == b;
    }
  }

  /** When the second part has n elements, the last n of the concatenation are its last n. */
  lemma LastInSecond<T>(a: seq<T>, b: seq<T>, n: nat)
    requires |b| >= n
    ensures Last(a + b, n) == Last(b, n) == b[|b| - n..]
  {
    DropConcat(a, b, |a| + |b| - n);
  }

  /** When the second part is shorter than n, the last n of the concatenation reach into the first. */
  lemma LastAcross<T>(a: seq<T>, b: seq<T>, n: nat)
    requires |b| < n <= |a| + |b|
    ensures Last(a + b, n) == a[|a| + |b| - n..] + b
  {
    DropConcat(a, b, |a| + |b| - n);
  }

  // ---------------------------------------------------------------------
  // Splicing children into an edge
  // ---------------------------------------------------------------------

  /** The slots `words` with the i-th gap replaced by texts[i]. */
  function Splice(words: seq<Option<Entry>>, texts: seq<seq<Entry>>): seq<Entry>
    requires NullCount(words) == |texts|
    decreases |words|
  {
    if |words| == 0 then []
    else
      NullCountFront(words);
      if words[0].Some? then [words[0].value] + Splice(words[1..], texts)
      else texts[0] + Splice(words[1..], texts[1..])
  }

  /** Splicing a concatenation of slot lists splices each part with its own texts. */
  lemma {:induction false} SpliceAppend(a: seq<Option<Entry>>, b: seq<Option<Entry>>, texts: seq<seq<Entry>>)
    requires NullCount(a + b) == |texts|
    ensures NullCount(a) <= |texts| && NullCount(b) == |texts| - NullCount(a)
    ensures Splice(a + b, texts) == Splice(a, texts[..NullCount(a)]) + Splice(b, texts[NullCount(a)..])
    decreases |a|, 1
  {
    NullCountAppend(a, b);
    if |a| == 0 {
      assert a + b == b;
      assert texts[..0] == [] && texts[0..] == texts;
    } else if a[0].Some? {
      SpliceAppendWord(a, b, texts);
    } else {
      SpliceAppendGap(a, b, texts);
    }
  }

  lemma {:induction false} SpliceAppendWord(a: seq<Option<Entry>>, b: seq<Option<Entry>>, texts: seq<seq<Entry>>)
    requires NullCount(a + b) == |texts| && |a| > 0 && a[0].Some?
    ensures NullCount(a) <= |texts| && NullCount(b) == |texts| - NullCount(a)
    ensures Splice(a + b, texts) == Splice(a, texts[..NullCount(a)]) + Splice(b, texts[NullCount(a)..])
    decreases |a|, 0
  {
    NullCountAppend(a, b);
    var ab, k := a + b, NullCount(a);
    assert ab[0] == a[0] && ab[1..] == a[1..] + b;
    SpliceFrontWord(ab, texts);
    SpliceFrontWord(a, texts[..k]);
    SpliceAppend(a[1..], b, texts);
    ConcatAssoc([a[0].value], Splice(a[1..], texts[..k]), Splice(b, texts[k..]));
  }

  /** A literal word in front is the first word of the splice. */
  lemma SpliceFrontWord(words: seq<Option<Entry>>, texts: seq<seq<Entry>>)
    requires NullCount(words) == |texts| && |words| > 0 && words[0].Some?
    ensures NullCount(words[1..]) == |texts|
    ensures Splice(words, texts) == [words[0].value] + Splice(words[1..], texts)
  {
    NullCountFront(words);
  }

  lemma {:induction false} SpliceAppendGap(a: seq<Option<Entry>>, b: seq<Option<Entry>>, texts: seq<seq<Entry>>)
    requires NullCount(a + b) == |texts| && |a| > 0 && a[0].None?
    ensures NullCount(a) <= |texts| && NullCount(b) == |texts| - NullCount(a)
    ensures Splice(a + b, texts) == Splice(a, texts[..NullCount(a)]) + Splice(b, texts[NullCount(a)..])
    decreases |a|, 0
  {
    NullCountAppend(a, b);
    var ab, k := a + b, NullCount(a);
    NullCountFront(ab);
    NullCountFront(a);
    assert ab[0] == a[0] && ab[1..] == a[1..] + b;
    var t := texts[1..];
    SpliceAppend(a[1..], b, t);
    var tk := texts[..k];
    assert tk[0] == texts[0] && tk[1..] == t[..k - 1];
    assert texts[k..] == t[k - 1..];
    assert Splice(ab, texts) == texts[0] + Splice(a[1..] + b, t);
    assert Splice(a, tk) == texts[0] + Splice(a[1..], tk[1..]);
  }

  /** The splice of a prefix, one slot longer: a literal word or the next text appended. */
  lemma SpliceSnoc(words: seq<Option<Entry>>, texts: seq<seq<Entry>>, n: nat, m: nat)
    requires 0 < n <= |words| && m <= |texts| && NullCount(words[..n]) == m
    ensures words[n - 1].Some? ==> NullCount(words[..n - 1]) == m && Splice(words[..n], texts[..m]) == Splice(words[..n - 1], texts[..m]) + [words[n - 1].value]
    ensures words[n - 1].None? ==> 0 < m && NullCount(words[..n - 1]) == m - 1 && Splice(words[..n], texts[..m]) == Splice(words[..n - 1], texts[..m - 1]) + texts[m - 1]
  {
    var a, b := words[..n - 1], [words[n - 1]];
    assert words[..n] == a + b;
    assert words[..n][..n - 1] == a;
    SpliceAppend(a, b, texts[..m]);
    NullCountFront(b);
    assert b[1..] == [];
    if b[0].None? {
      assert texts[..m][..m - 1] == texts[..m - 1];
      assert texts[..m][m - 1..] == [texts[m - 1]];
    } else {
      assert texts[..m][..m] == texts[..m];
    }
  }

  /** The first n words of a spliced edge only need the first n words of each text. */
  lemma {:induction false} TakeSplice(words: seq<Option<Entry>>, texts: seq<seq<Entry>>, ctxs: seq<seq<Entry>>, n: nat)
    requires NullCount(words) == |texts| == |ctxs|
    requires forall i :: 0 <= i < |texts| ==> ctxs[i] == Take(texts[i], n)
    ensures Take(Splice(words, texts), n) == Take(Splice(words, ctxs), n)
    decreases |words|
  {
    if |words| > 0 {
      NullCountFront(words);
      if words[0].Some? {
        TakeSplice(words[1..], texts, ctxs, n);
        TakeConcat([words[0].value], Splice(words[1..], texts), n);
        TakeConcat([words[0].value], Splice(words[1..], ctxs), n);
      } else {
        var t, c := texts[1..], ctxs[1..];
        forall i | 0 <= i < |t| ensures c[i] == Take(t[i], n) {
          assert c[i] == ctxs[i + 1] && t[i] == texts[i + 1];
        }
        TakeSplice(words[1..], t, c, n);
        TakeConcat(texts[0], Splice(words[1..], t), n);
        TakeConcat(ctxs[0], Splice(words[1..], c), n);
      }
    }
  }

  /** The last n words of a spliced edge only need the last n words of each text. */
  lemma {:induction false} LastSplice(words: seq<Option<Entry>>, texts: seq<seq<Entry>>, ctxs: seq<seq<Entry>>, n: nat)
    requires NullCount(words) == |texts| == |ctxs|
    requires forall i :: 0 <= i < |texts| ==> ctxs[i] == Last(texts[i], n)
    ensures Last(Splice(words, texts), n) == Last(Splice(words, ctxs), n)
    decreases |words|
  {
    if |words| > 0 {
      NullCountFront(words);
      if words[0].Some? {
        LastSplice(words[1..], texts, ctxs, n);
        LastConcat([words[0].value], Splice(words[1..], texts), n);
        LastConcat([words[0].value], Splice(words[1..], ctxs), n);
      } else {
        var t, c := texts[1..], ctxs[1..];
        forall i | 0 <= i < |t| ensures c[i] == Last(t[i], n) {
          assert c[i] == ctxs[i + 1] && t[i] == texts[i + 1];
        }
        LastSplice(words[1..], t, c, n);
        LastConcat(texts[0], Splice(words[1..], t), n);
        LastConcat(ctxs[0], Splice(words[1..], c), n);
      }
    }
  }

  /** The summed lengths of some texts. */
  function TextLengths(texts: seq<seq<Entry>>): nat {
    if |texts| == 0 then 0 else TextLengths(texts[..|texts| - 1]) + |texts[|texts| - 1]|
  }

  lemma {:induction false} TextLengthsFront(texts: seq<seq<Entry>>)
    requires |texts| > 0
    ensures TextLengths(texts) == |texts[0]| + TextLengths(texts[1..])
    decreases |texts|
  {
    if |texts| > 1 {
      var p := texts[..|texts| - 1];
      TextLengthsFront(p);
      assert p[1..] == texts[1..][..|texts[1..]| - 1];
    } else {
      assert texts[..0] == [] && texts[1..] == [];
    }
  }

  /** A spliced edge has its literal words and all the words of its texts. */
  lemma {:induction false} SpliceLength(words: seq<Option<Entry>>, texts: seq<seq<Entry>>)
    requires NullCount(words) == |texts|
    ensures |Splice(words, texts)| == |words| - NullCount(words) + TextLengths(texts)
    decreases |words|
  {
    if |words| > 0 {
      NullCountFront(words);
      if words[0].Some? {
        SpliceLength(words[1..], texts);
      } else {
        SpliceLength(words[1..], texts[1..]);
        TextLengthsFront(texts);
      }
    }
  }

  // ---------------------------------------------------------------------
  // The state UpdateState writes
  // ---------------------------------------------------------------------

  /** The stored left contexts of the children, in child order. */
  function Lefts(children: seq<nat>, states: seq<VertexState>): (r: seq<seq<Entry>>)
    requires ChildrenIn(children, |states|)
    ensures |r| == |children| && forall i :: 0 <= i < |children| ==> r[i] == states[children[i]].leftContext
  {
    seq(|children|, i requires 0 <= i < |children| => states[children[i]].leftContext)
  }

  /** The stored right contexts of the children, in child order. */
  function Rights(children: seq<nat>, states: seq<VertexState>): (r: seq<seq<Entry>>)
    requires ChildrenIn(children, |states|)
    ensures |r| == |children| && forall i :: 0 <= i < |children| ==> r[i] == states[children[i]].rightContext
  {
    seq(|children|, i requires 0 <= i < |children| => states[children[i]].rightContext)
  }

  /** The summed stored lengths of the children. */
  function ChildLengths(children: seq<nat>, states: seq<VertexState>): nat
    requires ChildrenIn(children, |states|)
  {
    if |children| == 0 then 0
    else ChildLengths(children[..|children| - 1], states) + states[children[|children| - 1]].targetLength
  }

  /** GetTargetLength: the edge's literal words plus the children's lengths. */
  function TargetLength(edge: Edge, states: seq<VertexState>): nat
    requires ChildrenIn(edge.children, |states|)
  {
    |edge.words| - NullCount(edge.words) + ChildLengths(edge.children, states)
  }

  /**
   * The left loop of UpdateState: words are appended to the existing
   * context until it holds Order-1 of them or the slots run out.
   */
  function LeftAfter(left: seq<Entry>, flat: seq<Entry>): seq<Entry> {
    if |left| >= Order - 1 then left else Take(left + flat, Order - 1)
  }

  /**
   * The right loop: words are appended walking backwards from the last
   * slot, then the whole context is reversed.
   */
  function RightAfter(right: seq<Entry>, flat: seq<Entry>): seq<Entry> {
    Reverse(if |right| >= Order - 1 then right else Take(right + Reverse(flat), Order - 1))
  }

  /** The state UpdateState writes over `st` for the winning edge and its statistics. */
  function NewState(st: VertexState, edge: Edge, states: seq<VertexState>, stats: seq<nat>): VertexState
    requires Aligned(edge) && ChildrenIn(edge.children, |states|)
  {
    VertexState(
      LeftAfter(st.leftContext, Splice(edge.words, Lefts(edge.children, states))),
      RightAfter(st.rightContext, Splice(edge.words, Rights(edge.children, states))),
      TargetLength(edge, states),
      stats)
  }

  /** A state summarises a derivation: its first and last Order-1 words and its length. */
  predicate Summarises(st: VertexState, text: seq<Entry>) {
    && st.leftContext == Take(text, Order - 1)
    && st.rightContext == Last(text, Order - 1)
    && st.targetLength == |text|
  }

  lemma {:induction false} ChildLengthsTexts(children: seq<nat>, states: seq<VertexState>, texts: seq<seq<Entry>>)
    requires ChildrenIn(children, |states|) && |texts| == |children|
    requires forall i :: 0 <= i < |children| ==> states[children[i]].targetLength == |texts[i]|
    ensures ChildLengths(children, states) == TextLengths(texts)
    decreases |children|
  {
    if |children| > 0 {
      var n := |children| - 1;
      ChildLengthsTexts(children[..n], states, texts[..n]);
    }
  }

  /**
   * UpdateState on an empty state: when every child's state summarises
   * the child's derivation, the new state summarises the edge's
   * derivation, the slots with each gap replaced by its child's
   * derivation.
   */
  lemma NewStateSummarises(edge: Edge, states: seq<VertexState>, stats: seq<nat>, texts: seq<seq<Entry>>)
    requires Aligned(edge) && ChildrenIn(edge.children, |states|) && |texts| == |edge.children|
    requires forall i :: 0 <= i < |texts| ==> Summarises(states[edge.children[i]], texts[i])
    ensures Summarises(NewState(EmptyState, edge, states, stats), Splice(edge.words, texts))
  {
    LeftAfterSummarises(edge, states, texts);
    RightAfterSummarises(edge, states, texts);
    ChildLengthsTexts(edge.children, states, texts);
    SpliceLength(edge.words, texts);
  }

  /** The left loop from an empty context collects the first Order-1 words of the derivation. */
  lemma LeftAfterSummarises(edge: Edge, states: seq<VertexState>, texts: seq<seq<Entry>>)
    requires Aligned(edge) && ChildrenIn(edge.children, |states|) && |texts| == |edge.children|
    requires forall i :: 0 <= i < |texts| ==> Summarises(states[edge.children[i]], texts[i])
    ensures LeftAfter([], Splice(edge.words, Lefts(edge.children, states))) == Take(Splice(edge.words, texts), Order - 1)
  {
    var flat := Splice(edge.words, Lefts(edge.children, states));
    TakeSplice(edge.words, texts, Lefts(edge.children, states), Order - 1);
    assert [] + flat == flat;
  }

  /** The right loop from an empty context collects the last Order-1 words of the derivation. */
  lemma RightAfterSummarises(edge: Edge, states: seq<VertexState>, texts: seq<seq<Entry>>)
    requires Aligned(edge) && ChildrenIn(edge.children, |states|) && |texts| == |edge.children|
    requires forall i :: 0 <= i < |texts| ==> Summarises(states[edge.children[i]], texts[i])
    ensures RightAfter([], Splice(edge.words, Rights(edge.children, states))) == Last(Splice(edge.words, texts), Order - 1)
  {
    var text := Splice(edge.words, texts);
    var flat := Splice(edge.words, Rights(edge.children, states));
    LastSplice(edge.words, texts, Rights(edge.children, states), Order - 1);
    assert [] + Reverse(flat) == Reverse(flat);
    ReverseTakeReverse(flat, Order - 1);
    assert Last(Last(text, Order - 1), Order - 1) == Last(text, Order - 1);
  }

  // ---------------------------------------------------------------------
  // The two loops of UpdateState
  // ---------------------------------------------------------------------

  /** The splice of the slots from wi on, starting with the children from ci on, split at its first slot. */
  lemma SpliceAt(words: seq<Option<Entry>>, texts: seq<seq<Entry>>, wi: nat, ci: nat)
    requires wi < |words| && ci <= |texts| && NullCount(words[wi..]) == |texts| - ci
    ensures words[wi].Some? ==>
              && NullCount(words[wi + 1..]) == |texts| - ci
              && Splice(words[wi..], texts[ci..]) == [words[wi].value] + Splice(words[wi + 1..], texts[ci..])
    ensures words[wi].None? ==>
              && ci < |texts| && NullCount(words[wi + 1..]) == |texts| - ci - 1
              && Splice(words[wi..], texts[ci..]) == texts[ci] + Splice(words[wi + 1..], texts[ci + 1..])
  {
    var w, t := words[wi..], texts[ci..];
    NullCountFront(w);
    assert w[0] == words[wi] && w[1..] == words[wi + 1..];
    if words[wi].None? {
      assert t[0] == texts[ci] && t[1..] == texts[ci + 1..];
    }
  }

  /**
   * Where the left loop stands: at slot wi with `childi` children
   * entered, and, inside a child, at position contexti of its context.
   */
  ghost predicate LeftWalk(words: seq<Option<Entry>>, lefts: seq<seq<Entry>>, wi: nat, childi: nat, ctx: Option<seq<Entry>>, contexti: nat) {
    && wi <= |words| && childi <= |lefts|
    && (ctx.None? ==> NullCount(words[wi..]) == |lefts| - childi)
    && (ctx.Some? ==> && wi < |words| && words[wi].None? && 0 < childi && ctx.value == lefts[childi - 1]
                      && contexti <= |ctx.value| && NullCount(words[wi + 1..]) == |lefts| - childi)
  }

  /** The words the left loop has still to visit. */
  ghost function LeftPending(words: seq<Option<Entry>>, lefts: seq<seq<Entry>>, wi: nat, childi: nat, ctx: Option<seq<Entry>>, contexti: nat): seq<Entry>
    requires LeftWalk(words, lefts, wi, childi, ctx, contexti)
  {
    if ctx.Some? then ctx.value[contexti..] + Splice(words[wi + 1..], lefts[childi..])
    else Splice(words[wi..], lefts[childi..])
  }

  lemma LeftStart(words: seq<Option<Entry>>, lefts: seq<seq<Entry>>)
    requires NullCount(words) == |lefts|
    ensures LeftWalk(words, lefts, 0, 0, None, 0) && LeftPending(words, lefts, 0, 0, None, 0) == Splice(words, lefts)
  {
    assert words[0..] == words && lefts[0..] == lefts;
  }

  lemma LeftWord(words: seq<Option<Entry>>, lefts: seq<seq<Entry>>, wi: nat, childi: nat)
    requires LeftWalk(words, lefts, wi, childi, None, 0) && wi < |words| && words[wi].Some?
    ensures LeftWalk(words, lefts, wi + 1, childi, None, 0)
    ensures LeftPending(words, lefts, wi, childi, None, 0) == [words[wi].value] + LeftPending(words, lefts, wi + 1, childi, None, 0)
  {
    SpliceAt(words, lefts, wi, childi);
  }

  lemma LeftEnter(words: seq<Option<Entry>>, lefts: seq<seq<Entry>>, wi: nat, childi: nat, contexti: nat)
    requires LeftWalk(words, lefts, wi, childi, None, contexti) && wi < |words| && words[wi].None?
    ensures childi < |lefts| && LeftWalk(words, lefts, wi, childi + 1, Some(lefts[childi]), 0)
    ensures LeftPending(words, lefts, wi, childi, None, contexti) == LeftPending(words, lefts, wi, childi + 1, Some(lefts[childi]), 0)
  {
    SpliceAt(words, lefts, wi, childi);
    assert lefts[childi][0..] == lefts[childi];
  }

  lemma LeftPush(words: seq<Option<Entry>>, lefts: seq<seq<Entry>>, wi: nat, childi: nat, ctx: seq<Entry>, contexti: nat)
    requires LeftWalk(words, lefts, wi, childi, Some(ctx), contexti) && contexti < |ctx|
    ensures LeftWalk(words, lefts, wi, childi, Some(ctx), contexti + 1)
    ensures LeftPending(words, lefts, wi, childi, Some(ctx), contexti) == [ctx[contexti]] + LeftPending(words, lefts, wi, childi, Some(ctx), contexti + 1)
  {
    var tail := Splice(words[wi + 1..], lefts[childi..]);
    var x, p, q := ctx[contexti], ctx[contexti..], ctx[contexti + 1..];
    assert LeftPending(words, lefts, wi, childi, Some(ctx), contexti) == p + tail;
    assert LeftPending(words, lefts, wi, childi, Some(ctx), contexti + 1) == q + tail;
    assert p == [x] + q;
    assert p + tail == [x] + (q + tail);
  }

  lemma LeftLeave(words: seq<Option<Entry>>, lefts: seq<seq<Entry>>, wi: nat, childi: nat, ctx: seq<Entry>, contexti: nat)
    requires LeftWalk(words, lefts, wi, childi, Some(ctx), contexti) && contexti >= |ctx|
    ensures LeftWalk(words, lefts, wi + 1, childi, None, 0)
    ensures LeftPending(words, lefts, wi, childi, Some(ctx), contexti) == LeftPending(words, lefts, wi + 1, childi, None, 0)
  {
    assert ctx[contexti..] == [];
  }

  lemma LeftEnd(words: seq<Option<Entry>>, lefts: seq<seq<Entry>>, wi: nat, childi: nat, ctx: Option<seq<Entry>>, contexti: nat)
    requires LeftWalk(words, lefts, wi, childi, ctx, contexti) && wi >= |words|
    ensures LeftPending(words, lefts, wi, childi, ctx, contexti) == []
  {
    assert words[wi..] == [];
    assert lefts[childi..] == [];
  }

  /**
   * What a loop that appends the words `flat` to `start` one at a time
   * while it holds fewer than Order-1 words leaves behind.
   */
  lemma CollectResult(start: seq<Entry>, flat: seq<Entry>, got: seq<Entry>, pending: seq<Entry>)
    requires got + pending == start + flat
    requires |got| <= Order - 1 || got == start
    requires |start| >= Order - 1 ==> got == start
    requires |got| >= Order - 1 || pending == []
    ensures got == (if |start| >= Order - 1 then start else Take(start + flat, Order - 1))
  {
    if |start| < Order - 1 && |got| >= Order - 1 {
      assert got == (start + flat)[..|got|];
    }
  }

  /**
   * Where the right loop stands, walking backwards: at slot wi (-1 once
   * past the first slot), children childi+1.. entered, and, inside a
   * child, at position contexti of its context (-1 once past its start).
   */
  ghost predicate RightWalk(words: seq<Option<Entry>>, rights: seq<seq<Entry>>, wi: int, childi: int, ctx: Option<seq<Entry>>, contexti: int) {
    && -1 <= wi < |words| && -1 <= childi < |rights|
    && (ctx.None? ==> NullCount(words[..wi + 1]) == childi + 1)
    && (ctx.Some? ==> && 0 <= wi && words[wi].None? && childi + 1 < |rights| && ctx.value == rights[childi + 1]
                      && -1 <= contexti < |ctx.value| && NullCount(words[..wi]) == childi + 1)
  }

  /** The words, last first, that the right loop has still to visit. */
  ghost function RightPending(words: seq<Option<Entry>>, rights: seq<seq<Entry>>, wi: int, childi: int, ctx: Option<seq<Entry>>, contexti: int): seq<Entry>
    requires RightWalk(words, rights, wi, childi, ctx, contexti)
  {
    if ctx.Some? then Reverse(ctx.value[..contexti + 1]) + Reverse(Splice(words[..wi], rights[..childi + 1]))
    else Reverse(Splice(words[..wi + 1], rights[..childi + 1]))
  }

  lemma RightStart(words: seq<Option<Entry>>, rights: seq<seq<Entry>>)
    requires NullCount(words) == |rights|
    ensures RightWalk(words, rights, |words| - 1, |rights| - 1, None, 0)
    ensures RightPending(words, rights, |words| - 1, |rights| - 1, None, 0) == Reverse(Splice(words, rights))
  {
    assert words[..|words|] == words && rights[..|rights|] == rights;
  }

  lemma RightWord(words: seq<Option<Entry>>, rights: seq<seq<Entry>>, wi: int, childi: int)
    requires RightWalk(words, rights, wi, childi, None, 0) && 0 <= wi && words[wi].Some?
    ensures RightWalk(words, rights, wi - 1, childi, None, 0)
    ensures RightPending(words, rights, wi, childi, None, 0) == [words[wi].value] + RightPending(words, rights, wi - 1, childi, None, 0)
  {
    SpliceSnoc(words, rights, wi + 1, childi + 1);
    ReverseAppend(Splice(words[..wi], rights[..childi + 1]), [words[wi].value]);
    assert Reverse([words[wi].value]) == [words[wi].value];
  }

  lemma RightEnter(words: seq<Option<Entry>>, rights: seq<seq<Entry>>, wi: int, childi: int, contexti: int)
    requires RightWalk(words, rights, wi, childi, None, contexti) && 0 <= wi && words[wi].None?
    ensures 0 <= childi && RightWalk(words, rights, wi, childi - 1, Some(rights[childi]), |rights[childi]| - 1)
    ensures RightPending(words, rights, wi, childi, None, contexti) == RightPending(words, rights, wi, childi - 1, Some(rights[childi]), |rights[childi]| - 1)
  {
    SpliceSnoc(words, rights, wi + 1, childi + 1);
    ReverseAppend(Splice(words[..wi], rights[..childi]), rights[childi]);
    assert rights[childi][..|rights[childi]|] == rights[childi];
  }

  lemma RightPush(words: seq<Option<Entry>>, rights: seq<seq<Entry>>, wi: int, childi: int, ctx: seq<Entry>, contexti: int)
    requires RightWalk(words, rights, wi, childi, Some(ctx), contexti) && 0 <= contexti
    ensures RightWalk(words, rights, wi, childi, Some(ctx), contexti - 1)
    ensures RightPending(words, rights, wi, childi, Some(ctx), contexti) == [ctx[contexti]] + RightPending(words, rights, wi, childi, Some(ctx), contexti - 1)
  {
    var tail := Reverse(Splice(words[..wi], rights[..childi + 1]));
    var x, p, q := ctx[contexti], ctx[..contexti], ctx[..contexti + 1];
    assert RightPending(words, rights, wi, childi, Some(ctx), contexti) == Reverse(q) + tail;
    assert RightPending(words, rights, wi, childi, Some(ctx), contexti - 1) == Reverse(p) + tail;
    assert q == p + [x];
    ReverseSnoc(p, x);
    assert Reverse(q) + tail == [x] + (Reverse(p) + tail);
  }

  lemma RightLeave(words: seq<Option<Entry>>, rights: seq<seq<Entry>>, wi: int, childi: int, ctx: seq<Entry>, contexti: int)
    requires RightWalk(words, rights, wi, childi, Some(ctx), contexti) && contexti < 0
    ensures RightWalk(words, rights, wi - 1, childi, None, 0)
    ensures RightPending(words, rights, wi, childi, Some(ctx), contexti) == RightPending(words, rights, wi - 1, childi, None, 0)
  {
    assert ctx[..contexti + 1] == [];
  }

  lemma RightEnd(words: seq<Option<Entry>>, rights: seq<seq<Entry>>, wi: int, childi: int, ctx: Option<seq<Entry>>, contexti: int)
    requires RightWalk(words, rights, wi, childi, ctx, contexti) && wi < 0
    ensures RightPending(words, rights, wi, childi, ctx, contexti) == []
  {
    assert words[..0] == [];
    assert rights[..0] == [];
  }
}
