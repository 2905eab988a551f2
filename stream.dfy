/**
 * The word stream that HgBleuScorer::Score (mert/ForestRescore.cpp)
 * feeds through its n-gram window. Every vertex whose best edge is known
 * keeps the first and the last Order-1 words of its best derivation;
 * scoring an edge splices those boundary words of its children between
 * the edge's own words and counts only the n-grams that could not have
 * been counted inside a child.
 */
module EdgeStream {
  import opened Wrappers
  import opened Vocabulary
  import opened Ngram
  import opened Hypergraph

  /** Matched and total counts of the orders 1..Order: entry 2(o-1) is matched, 2(o-1)+1 total. */
  const StatsSize: nat := 2 * Order

  /**
   * VertexState: the boundary words of the best derivation of a vertex,
   * its length in words, and its statistics.
   */
  datatype VertexState = VertexState(leftContext: seq<Entry>, rightContext: seq<Entry>, targetLength: nat, bleuStats: seq<nat>)

  /** VertexState(): empty contexts, length 0, and Order zero statistics (not StatsSize). */
  const EmptyState := VertexState([], [], 0, [0, 0, 0, 0])

  /** The states of a scorer just built for n vertices. */
  function EmptyStates(n: nat): seq<VertexState> {
    seq(n, _ => EmptyState)
  }

  /** A state UpdateState has written: non-empty contexts of at most Order-1 words, all statistics. */
  predicate Written(st: VertexState) {
    && 1 <= |st.leftContext| <= Order - 1
    && 1 <= |st.rightContext| <= Order - 1
    && |st.bleuStats| == StatsSize
  }

  /** Every child is a vertex with a state. */
  predicate ChildrenIn(children: seq<nat>, n: nat) {
    forall i :: 0 <= i < |children| ==> children[i] < n
  }

  /** Every child of an edge already has a written state. */
  predicate ChildrenWritten(children: seq<nat>, states: seq<VertexState>) {
    ChildrenIn(children, |states|) && forall i :: 0 <= i < |children| ==> Written(states[children[i]])
  }

  // ---------------------------------------------------------------------
  // The word stream of an edge
  // ---------------------------------------------------------------------

  /** One step of the walk of Score: a word fed with its position, or the window cleared. */
  datatype Event = Feed(word: Entry, mode: Mode) | Clear

  /** The words ctx[from..] of a child's left context, each with its position. */
  function LeftFeeds(ctx: seq<Entry>, from: nat): (r: seq<Event>)
    requires from <= |ctx|
    ensures |r| == |ctx| - from
    decreases |ctx| - from
  {
    if from == |ctx| then [] else [Feed(ctx[from], InLeft(from))] + LeftFeeds(ctx, from + 1)
  }

  /** The words ctx[from..] of a child's right context. */
  function RightFeeds(ctx: seq<Entry>, from: nat): (r: seq<Event>)
    requires from <= |ctx|
    ensures |r| == |ctx| - from
    decreases |ctx| - from
  {
    if from == |ctx| then [] else [Feed(ctx[from], InRight)] + RightFeeds(ctx, from + 1)
  }

  /**
   * What a gap splices in: the child's left context and then, only when
   * that context is full (Order-1 words), a cleared window and the
   * child's right context. A shorter left context is the child's whole
   * derivation, so the right context would repeat it.
   */
  function GapEvents(st: VertexState): seq<Event> {
    LeftFeeds(st.leftContext, 0) + AfterLeft(st)
  }

  /** What follows a child's left context: a clear and its right context, when the left one is full. */
  function AfterLeft(st: VertexState): seq<Event> {
    if |st.leftContext| == Order - 1 then [Clear] + RightFeeds(st.rightContext, 0) else []
  }

  /** The slots of an edge and the children its gaps stand for, in slot order. */
  predicate Fits(words: seq<Option<Entry>>, children: seq<nat>, states: seq<VertexState>) {
    NullCount(words) <= |children| && ChildrenIn(children, |states|)
  }

  /** The gap count of a slot list, from its first slot. */
  lemma NullCountFront(words: seq<Option<Entry>>)
    requires |words| > 0
    ensures NullCount(words) == (if words[0].None? then 1 else 0) + NullCount(words[1..])
  {
    assert words == [words[0]] + words[1..];
    NullCountAppend([words[0]], words[1..]);
    assert [words[0]][..0] == [];
  }

  /** A gap in front splices in the events of the first child. */
  lemma EventsGap(words: seq<Option<Entry>>, children: seq<nat>, states: seq<VertexState>)
    requires Fits(words, children, states) && 0 < |words| && words[0].None?
    ensures 0 < |children| && Fits(words[1..], children[1..], states)
    ensures Events(words, children, states) == GapEvents(states[children[0]]) + Events(words[1..], children[1..], states)
  {
    NullCountFront(words);
    var s, s' := children, children[1..];
    forall i | 0 <= i < |s'| ensures s'[i] < |states| {
      assert s'[i] == s[i + 1];
    }
  }

  /** The word stream of the walk of Score over the slots `words`. */
  function Events(words: seq<Option<Entry>>, children: seq<nat>, states: seq<VertexState>): seq<Event>
    requires Fits(words, children, states)
    decreases |words|
  {
    if |words| == 0 then []
    else
      NullCountFront(words);
      if words[0].Some? then [Feed(words[0].value, Literal)] + Events(words[1..], children, states)
      else GapEvents(states[children[0]]) + Events(words[1..], children[1..], states)
  }

  /**
   * One event through the window: a boundary word is skipped (its
   * position still counts), any other word is pushed with the insertion
   * rule of its position, and Clear empties the open n-grams.
   */
  function Step(w: Window, e: Event, boundary: set<nat>): Window {
    match e
    case Clear => Window([], w.counted)
    case Feed(t, mode) => if t.index in boundary then w else Push(w, t.index, mode)
  }

  function Run(es: seq<Event>, w: Window, boundary: set<nat>): Window
    decreases |es|
  {
    if |es| == 0 then w else Run(es[1..], Step(w, es[0], boundary), boundary)
  }

  lemma {:induction false} RunAppend(es: seq<Event>, rest: seq<Event>, w: Window, boundary: set<nat>)
    ensures Run(es + rest, w, boundary) == Run(rest, Run(es, w, boundary), boundary)
    decreases |es|
  {
    if |es| == 0 {
      assert es + rest == rest;
    } else {
      assert (es + rest)[0] == es[0] && (es + rest)[1..] == es[1..] + rest;
      RunAppend(es[1..], rest, Step(w, es[0], boundary), boundary);
    }
  }

  // ---------------------------------------------------------------------
  // The walk of Score (mert/ForestRescore.cpp:145-203)
  // ---------------------------------------------------------------------

  /**
   * Where the walk is between two iterations: between slots, or in the
   * left or right context of the child state `st`, having just fed the
   * word at `pos`.
   */
  datatype Walk = Outside | LeftOf(st: VertexState, pos: nat) | RightOf(st: VertexState, pos: nat)

  /** The part of a walk position's slot that is still to come. */
  function WalkTail(walk: Walk): seq<Event>
    requires walk.LeftOf? ==> walk.pos < |walk.st.leftContext|
    requires walk.RightOf? ==> walk.pos < |walk.st.rightContext|
  {
    match walk
    case Outside => []
    case LeftOf(st, i) => LeftFeeds(st.leftContext, i + 1) + AfterLeft(st)
    case RightOf(st, i) => RightFeeds(st.rightContext, i + 1)
  }

  /** The slots after the walk position: from `wordId` between slots, after it inside a gap. */
  function NextSlot(wordId: nat, walk: Walk): nat {
    if walk.Outside? then wordId else wordId + 1
  }

  /**
   * A consistent walk position: `childId` children consumed, which is the
   * number of gaps before the slots still to come; inside a gap, the
   * state is that of the gap's child and the position lies in its
   * context.
   */
  ghost predicate WalkPos(words: seq<Option<Entry>>, children: seq<nat>, states: seq<VertexState>,
                          wordId: nat, childId: nat, walk: Walk)
  {
    && NextSlot(wordId, walk) <= |words| && childId <= |children|
    && NullCount(words) == |children| && ChildrenWritten(children, states)
    && ChildrenIn(children[childId..], |states|)
    && NullCount(words[NextSlot(wordId, walk)..]) == |children| - childId
    && (!walk.Outside? ==> words[wordId].None? && 0 < childId && walk.st == states[children[childId - 1]])
    && (walk.LeftOf? ==> walk.pos < |walk.st.leftContext|)
    && (walk.RightOf? ==> |walk.st.leftContext| == Order - 1 && walk.pos < |walk.st.rightContext|)
  }

  /** The events still to come from a walk position. */
  function Rest(words: seq<Option<Entry>>, children: seq<nat>, states: seq<VertexState>, wordId: nat, childId: nat, walk: Walk): seq<Event>
    requires WalkPos(words, children, states, wordId, childId, walk)
  {
    WalkTail(walk) + Events(words[NextSlot(wordId, walk)..], children[childId..], states)
  }

  /** The termination measure of the walk: two per event to come, one more inside a gap. */
  function WalkMeasure(words: seq<Option<Entry>>, children: seq<nat>, states: seq<VertexState>, wordId: nat, childId: nat, walk: Walk): nat
    requires WalkPos(words, children, states, wordId, childId, walk)
  {
    2 * |Rest(words, children, states, wordId, childId, walk)| + if walk.Outside? then 0 else 1
  }

  /** The start of the walk: nothing consumed, the whole stream to come. */
  lemma WalkStart(words: seq<Option<Entry>>, children: seq<nat>, states: seq<VertexState>)
    requires NullCount(words) == |children| && ChildrenWritten(children, states)
    ensures WalkPos(words, children, states, 0, 0, Outside)
    ensures Rest(words, children, states, 0, 0, Outside) == Events(words, children, states)
  {
    assert words[0..] == words && children[0..] == children;
  }

  /** The end of the walk: nothing is left to come. */
  lemma WalkFinish(words: seq<Option<Entry>>, children: seq<nat>, states: seq<VertexState>, wordId: nat, childId: nat, walk: Walk)
    requires WalkPos(words, children, states, wordId, childId, walk) && wordId >= |words|
    ensures Rest(words, children, states, wordId, childId, walk) == []
  {
  }

  /** Running `es` and then `rest` on the window `w`, once the first part has given `w'`. */
  lemma Advance(es: seq<Event>, rest: seq<Event>, w: Window, w': Window, boundary: set<nat>, final: Window)
    requires Run(es + rest, w, boundary) == final && w' == Run(es, w, boundary)
    ensures Run(rest, w', boundary) == final
  {
    RunAppend(es, rest, w, boundary);
  }

  lemma RunOne(e: Event, w: Window, boundary: set<nat>)
    ensures Run([e], w, boundary) == Step(w, e, boundary)
  {
    assert [e][1..] == [];
  }

  lemma RunTwo(e: Event, f: Event, w: Window, boundary: set<nat>)
    ensures Run([e, f], w, boundary) == Step(Step(w, e, boundary), f, boundary)
  {
    assert [e, f][1..] == [f];
    RunOne(f, Step(w, e, boundary), boundary);
  }

  lemma ChildrenInSuffix(children: seq<nat>, k: nat, n: nat)
    requires k < |children| && ChildrenIn(children[k..], n)
    ensures children[k] < n && ChildrenIn(children[k + 1..], n)
  {
    var s, s' := children[k..], children[k + 1..];
    assert s[0] == children[k];
    forall i | 0 <= i < |s'| ensures s'[i] < n {
      assert s'[i] == s[i + 1];
    }
  }

  /** The tail of a left-context position, one word further on. */
  lemma TailLeftNext(st: VertexState, i: nat)
    requires i + 1 < |st.leftContext|
    ensures WalkTail(LeftOf(st, i)) == [Feed(st.leftContext[i + 1], InLeft(i + 1))] + WalkTail(LeftOf(st, i + 1))
  {
    var f, more, after := Feed(st.leftContext[i + 1], InLeft(i + 1)), LeftFeeds(st.leftContext, i + 2), AfterLeft(st);
    assert LeftFeeds(st.leftContext, i + 1) == [f] + more;
    assert WalkTail(LeftOf(st, i)) == ([f] + more) + after;
    assert WalkTail(LeftOf(st, i + 1)) == more + after;
    assert ([f] + more) + after == [f] + (more + after);
  }

  /** What a gap splices in: its first left word, then the tail of that position. */
  lemma TailEnter(st: VertexState)
    requires 0 < |st.leftContext|
    ensures GapEvents(st) == [Feed(st.leftContext[0], InLeft(0))] + WalkTail(LeftOf(st, 0))
  {
    var f, more := Feed(st.leftContext[0], InLeft(0)), LeftFeeds(st.leftContext, 1);
    assert ([f] + more) + AfterLeft(st) == [f] + (more + AfterLeft(st));
  }

  /** The tail of the last position of a full left context: a clear and the right context. */
  lemma TailLeftFull(st: VertexState, i: nat)
    requires i + 1 == |st.leftContext| == Order - 1 && 0 < |st.rightContext|
    ensures WalkTail(LeftOf(st, i)) == [Clear, Feed(st.rightContext[0], InRight)] + WalkTail(RightOf(st, 0))
  {
    var f, more := Feed(st.rightContext[0], InRight), RightFeeds(st.rightContext, 1);
    assert LeftFeeds(st.leftContext, i + 1) == [];
    assert AfterLeft(st) == [Clear] + ([f] + more);
    assert [] + ([Clear] + ([f] + more)) == [Clear, f] + more;
  }

  /** The tail of a right-context position, one word further on. */
  lemma TailRightNext(st: VertexState, i: nat)
    requires i + 1 < |st.rightContext|
    ensures WalkTail(RightOf(st, i)) == [Feed(st.rightContext[i + 1], InRight)] + WalkTail(RightOf(st, i + 1))
  {
  }

  lemma ChildWritten(children: seq<nat>, states: seq<VertexState>, c: nat)
    requires ChildrenWritten(children, states) && c < |children|
    ensures children[c] < |states| && Written(states[children[c]])
  {
  }

  /** A word slot from between slots: its word is fed as a literal. */
  lemma WalkWord(words: seq<Option<Entry>>, children: seq<nat>, states: seq<VertexState>, wordId: nat, childId: nat)
    requires WalkPos(words, children, states, wordId, childId, Outside)
    requires wordId < |words| && words[wordId].Some?
    ensures WalkPos(words, children, states, wordId + 1, childId, Outside)
    ensures Rest(words, children, states, wordId, childId, Outside)
            == [Feed(words[wordId].value, Literal)] + Rest(words, children, states, wordId + 1, childId, Outside)
  {
    var rest := words[wordId..];
    NullCountFront(rest);
    assert rest[1..] == words[wordId + 1..];
  }

  /** A gap from between slots: the walk moves into the gap's child. */
  lemma WalkEnterPos(words: seq<Option<Entry>>, children: seq<nat>, states: seq<VertexState>, wordId: nat, childId: nat)
    requires WalkPos(words, children, states, wordId, childId, Outside)
    requires wordId < |words| && words[wordId].None?
    ensures childId < |children| && Written(states[children[childId]])
    ensures WalkPos(words, children, states, wordId, childId + 1, LeftOf(states[children[childId]], 0))
    ensures NullCount(words[wordId..]) == 1 + NullCount(words[wordId + 1..])
  {
    var rest := words[wordId..];
    NullCountFront(rest);
    assert rest[1..] == words[wordId + 1..];
    ChildrenInSuffix(children, childId, |states|);
    ChildWritten(children, states, childId);
  }

  /** A gap from between slots: the child's state is taken and its first left word fed. */
  lemma WalkEnter(words: seq<Option<Entry>>, children: seq<nat>, states: seq<VertexState>, wordId: nat, childId: nat)
    requires WalkPos(words, children, states, wordId, childId, Outside)
    requires wordId < |words| && words[wordId].None?
    ensures childId < |children| && Written(states[children[childId]])
    ensures var st := states[children[childId]];
            && WalkPos(words, children, states, wordId, childId + 1, LeftOf(st, 0))
            && Rest(words, children, states, wordId, childId, Outside)
               == [Feed(st.leftContext[0], InLeft(0))] + Rest(words, children, states, wordId, childId + 1, LeftOf(st, 0))
  {
    WalkEnterPos(words, children, states, wordId, childId);
    var st := states[children[childId]];
    var rest, cs := words[wordId..], children[childId..];
    assert rest[1..] == words[wordId + 1..];
    assert cs[0] == children[childId] && cs[1..] == children[childId + 1..];
    EventsGap(rest, cs, states);
    TailEnter(st);
    var f := Feed(st.leftContext[0], InLeft(0));
    var tail := Events(words[wordId + 1..], children[childId + 1..], states);
    assert Events(rest, cs, states) == ([f] + WalkTail(LeftOf(st, 0))) + tail;
    assert ([f] + WalkTail(LeftOf(st, 0))) + tail == [f] + (WalkTail(LeftOf(st, 0)) + tail);
  }

  /** A move inside the same child that consumes `es` of the child's events keeps the position consistent. */
  lemma InsideMove(words: seq<Option<Entry>>, children: seq<nat>, states: seq<VertexState>, wordId: nat, childId: nat,
                   walk: Walk, walk': Walk, es: seq<Event>)
    requires WalkPos(words, children, states, wordId, childId, walk) && !walk.Outside?
    requires !walk'.Outside? && walk'.st == walk.st
    requires walk'.LeftOf? ==> walk'.pos < |walk'.st.leftContext|
    requires walk'.RightOf? ==> |walk'.st.leftContext| == Order - 1 && walk'.pos < |walk'.st.rightContext|
    requires WalkTail(walk) == es + WalkTail(walk')
    ensures WalkPos(words, children, states, wordId, childId, walk')
    ensures Rest(words, children, states, wordId, childId, walk) == es + Rest(words, children, states, wordId, childId, walk')
  {
    InsidePos(words, children, states, wordId, childId, walk, walk');
    InsideRest(words, children, states, wordId, childId, walk, walk', es);
  }

  lemma InsidePos(words: seq<Option<Entry>>, children: seq<nat>, states: seq<VertexState>, wordId: nat, childId: nat,
                  walk: Walk, walk': Walk)
    requires WalkPos(words, children, states, wordId, childId, walk) && !walk.Outside?
    requires !walk'.Outside? && walk'.st == walk.st
    requires walk'.LeftOf? ==> walk'.pos < |walk'.st.leftContext|
    requires walk'.RightOf? ==> |walk'.st.leftContext| == Order - 1 && walk'.pos < |walk'.st.rightContext|
    ensures WalkPos(words, children, states, wordId, childId, walk')
  {
    assert NextSlot(wordId, walk) == NextSlot(wordId, walk');
  }

  lemma InsideRest(words: seq<Option<Entry>>, children: seq<nat>, states: seq<VertexState>, wordId: nat, childId: nat,
                   walk: Walk, walk': Walk, es: seq<Event>)
    requires WalkPos(words, children, states, wordId, childId, walk) && WalkPos(words, children, states, wordId, childId, walk')
    requires !walk.Outside? && !walk'.Outside?
    requires WalkTail(walk) == es + WalkTail(walk')
    ensures Rest(words, children, states, wordId, childId, walk) == es + Rest(words, children, states, wordId, childId, walk')
  {
    var tail := Events(words[wordId + 1..], children[childId..], states);
    var t, t' := WalkTail(walk), WalkTail(walk');
    assert Rest(words, children, states, wordId, childId, walk) == t + tail;
    assert Rest(words, children, states, wordId, childId, walk') == t' + tail;
    ConcatAssoc(es, t', tail);
  }

  /** Inside a left context, not at its end: its next word is fed. */
  lemma WalkLeftNext(words: seq<Option<Entry>>, children: seq<nat>, states: seq<VertexState>, wordId: nat, childId: nat, st: VertexState, i: nat)
    requires WalkPos(words, children, states, wordId, childId, LeftOf(st, i))
    requires i + 1 < |st.leftContext|
    ensures WalkPos(words, children, states, wordId, childId, LeftOf(st, i + 1))
    ensures Rest(words, children, states, wordId, childId, LeftOf(st, i))
            == [Feed(st.leftContext[i + 1], InLeft(i + 1))] + Rest(words, children, states, wordId, childId, LeftOf(st, i + 1))
  {
    TailLeftNext(st, i);
    InsideMove(words, children, states, wordId, childId, LeftOf(st, i), LeftOf(st, i + 1), [Feed(st.leftContext[i + 1], InLeft(i + 1))]);
  }

  /** At the end of a full left context: the window is cleared and the first right word fed. */
  lemma WalkLeftFull(words: seq<Option<Entry>>, children: seq<nat>, states: seq<VertexState>, wordId: nat, childId: nat, st: VertexState, i: nat)
    requires WalkPos(words, children, states, wordId, childId, LeftOf(st, i))
    requires i + 1 == |st.leftContext| == Order - 1
    ensures 0 < |st.rightContext|
    ensures WalkPos(words, children, states, wordId, childId, RightOf(st, 0))
    ensures Rest(words, children, states, wordId, childId, LeftOf(st, i))
            == [Clear, Feed(st.rightContext[0], InRight)] + Rest(words, children, states, wordId, childId, RightOf(st, 0))
  {
    assert Written(st) by { ChildWritten(children, states, childId - 1); }
    TailLeftFull(st, i);
    InsideMove(words, children, states, wordId, childId, LeftOf(st, i), RightOf(st, 0), [Clear, Feed(st.rightContext[0], InRight)]);
  }

  /** At the end of a short left context: the walk moves past the gap. */
  lemma WalkLeftShort(words: seq<Option<Entry>>, children: seq<nat>, states: seq<VertexState>, wordId: nat, childId: nat, st: VertexState, i: nat)
    requires WalkPos(words, children, states, wordId, childId, LeftOf(st, i))
    requires i + 1 == |st.leftContext| != Order - 1
    ensures WalkPos(words, children, states, wordId + 1, childId, Outside)
    ensures Rest(words, children, states, wordId, childId, LeftOf(st, i)) == Rest(words, children, states, wordId + 1, childId, Outside)
  {
    assert LeftFeeds(st.leftContext, i + 1) == [];
  }

  /** Inside a right context, not at its end: its next word is fed. */
  lemma WalkRightNext(words: seq<Option<Entry>>, children: seq<nat>, states: seq<VertexState>, wordId: nat, childId: nat, st: VertexState, i: nat)
    requires WalkPos(words, children, states, wordId, childId, RightOf(st, i))
    requires i + 1 < |st.rightContext|
    ensures WalkPos(words, children, states, wordId, childId, RightOf(st, i + 1))
    ensures Rest(words, children, states, wordId, childId, RightOf(st, i))
            == [Feed(st.rightContext[i + 1], InRight)] + Rest(words, children, states, wordId, childId, RightOf(st, i + 1))
  {
    TailRightNext(st, i);
    InsideMove(words, children, states, wordId, childId, RightOf(st, i), RightOf(st, i + 1), [Feed(st.rightContext[i + 1], InRight)]);
  }

  /** At the end of a right context: the walk leaves the child and moves past the gap. */
  lemma WalkRightEnd(words: seq<Option<Entry>>, children: seq<nat>, states: seq<VertexState>, wordId: nat, childId: nat, st: VertexState, i: nat)
    requires WalkPos(words, children, states, wordId, childId, RightOf(st, i))
    requires i + 1 == |st.rightContext|
    ensures WalkPos(words, children, states, wordId + 1, childId, Outside)
    ensures Rest(words, children, states, wordId, childId, RightOf(st, i)) == Rest(words, children, states, wordId + 1, childId, Outside)
  {
    assert RightFeeds(st.rightContext, i + 1) == [];
  }

  /**
   * The position of the walk of Score: the next slot, the children
   * consumed, the position in the current child's context, that child's
   * state, and which of its contexts is being read.
   */
  datatype Cursor = Cursor(wordId: nat, childId: nat, contextId: nat, vertexState: Option<VertexState>,
                           inLeftContext: bool, inRightContext: bool)

  /** Inside a child exactly when a state is held, and never in both contexts. */
  predicate Consistent(c: Cursor) {
    && (c.vertexState.None? <==> !c.inLeftContext && !c.inRightContext)
    && !(c.inLeftContext && c.inRightContext)
  }

  /** The walk position a cursor stands for. */
  function WalkOf(c: Cursor): Walk {
    if c.vertexState.None? then Outside
    else if c.inLeftContext then LeftOf(c.vertexState.value, c.contextId)
    else RightOf(c.vertexState.value, c.contextId)
  }

  /** The insertion rule of Score for the word just reached: literal, left at its position, or right. */
  function ModeAt(c: Cursor): Mode {
    if c.vertexState.None? then Literal else if c.inLeftContext then InLeft(c.contextId) else InRight
  }

  ghost predicate CursorPos(words: seq<Option<Entry>>, children: seq<nat>, states: seq<VertexState>, c: Cursor) {
    Consistent(c) && WalkPos(words, children, states, c.wordId, c.childId, WalkOf(c))
  }

  function CursorRest(words: seq<Option<Entry>>, children: seq<nat>, states: seq<VertexState>, c: Cursor): seq<Event>
    requires CursorPos(words, children, states, c)
  {
    Rest(words, children, states, c.wordId, c.childId, WalkOf(c))
  }

  function CursorMeasure(words: seq<Option<Entry>>, children: seq<nat>, states: seq<VertexState>, c: Cursor): nat
    requires CursorPos(words, children, states, c)
  {
    WalkMeasure(words, children, states, c.wordId, c.childId, WalkOf(c))
  }

  /**
   * One move of the walk of Score from `c` to `c'`: `es` is the part of
   * the word stream it consumes, `word` the word it reaches (none when it
   * only leaves a child); the move either keeps the open n-grams or, on
   * the jump from a full left context to the right one, clears them.
   */
  ghost predicate Moved(words: seq<Option<Entry>>, children: seq<nat>, states: seq<VertexState>,
                        c: Cursor, open: seq<Key>, c': Cursor, open': seq<Key>, word: Option<Entry>, es: seq<Event>)
    requires CursorPos(words, children, states, c)
  {
    && CursorPos(words, children, states, c')
    && CursorRest(words, children, states, c) == es + CursorRest(words, children, states, c')
    && CursorMeasure(words, children, states, c') < CursorMeasure(words, children, states, c)
    && (word.None? ==> es == [] && open' == open)
    && (word.Some? ==>
          || (es == [Feed(word.value, ModeAt(c'))] && open' == open)
          || (es == [Clear, Feed(word.value, ModeAt(c'))] && open' == []))
  }

  /** A word slot: the word itself, as a literal. */
  lemma MoveWord(words: seq<Option<Entry>>, children: seq<nat>, states: seq<VertexState>, c: Cursor, open: seq<Key>)
    requires CursorPos(words, children, states, c) && c.wordId < |words| && words[c.wordId].Some?
    ensures Moved(words, children, states, c, open, c.(wordId := c.wordId + 1), open, words[c.wordId], [Feed(words[c.wordId].value, Literal)])
  {
    WalkWord(words, children, states, c.wordId, c.childId);
    assert WalkOf(c) == Outside && WalkOf(c.(wordId := c.wordId + 1)) == Outside;
  }

  /** A gap reached from between slots: the first word of the child's left context. */
  lemma MoveEnter(words: seq<Option<Entry>>, children: seq<nat>, states: seq<VertexState>, c: Cursor, open: seq<Key>)
    requires CursorPos(words, children, states, c) && c.wordId < |words| && words[c.wordId].None?
    requires !c.inLeftContext && !c.inRightContext
    ensures c.childId < |children| && Written(states[children[c.childId]])
    ensures var st := states[children[c.childId]];
            Moved(words, children, states, c, open, Cursor(c.wordId, c.childId + 1, 0, Some(st), true, false), open,
                  Some(st.leftContext[0]), [Feed(st.leftContext[0], InLeft(0))])
  {
    assert WalkOf(c) == Outside;
    WalkEnter(words, children, states, c.wordId, c.childId);
    var st := states[children[c.childId]];
    var c' := Cursor(c.wordId, c.childId + 1, 0, Some(st), true, false);
    assert WalkOf(c') == LeftOf(st, 0) && Consistent(c') && ModeAt(c') == InLeft(0);
  }

  /** Inside a left context, not at its end: its next word. */
  lemma MoveLeftNext(words: seq<Option<Entry>>, children: seq<nat>, states: seq<VertexState>, c: Cursor, open: seq<Key>)
    requires CursorPos(words, children, states, c) && c.inLeftContext
    requires c.contextId + 1 < |c.vertexState.value.leftContext|
    ensures var st, i := c.vertexState.value, c.contextId + 1;
            Moved(words, children, states, c, open, c.(contextId := i), open, Some(st.leftContext[i]), [Feed(st.leftContext[i], InLeft(i))])
  {
    var st := c.vertexState.value;
    assert WalkOf(c) == LeftOf(st, c.contextId);
    WalkLeftNext(words, children, states, c.wordId, c.childId, st, c.contextId);
    assert WalkOf(c.(contextId := c.contextId + 1)) == LeftOf(st, c.contextId + 1);
  }

  /** At the end of a full left context: the open n-grams cleared and the first right word. */
  lemma MoveLeftFull(words: seq<Option<Entry>>, children: seq<nat>, states: seq<VertexState>, c: Cursor, open: seq<Key>)
    requires CursorPos(words, children, states, c) && c.inLeftContext
    requires c.contextId + 1 == |c.vertexState.value.leftContext| == Order - 1
    ensures 0 < |c.vertexState.value.rightContext|
    ensures var st := c.vertexState.value;
            Moved(words, children, states, c, open, c.(contextId := 0, inLeftContext := false, inRightContext := true), [],
                  Some(st.rightContext[0]), [Clear, Feed(st.rightContext[0], InRight)])
  {
    var st := c.vertexState.value;
    assert WalkOf(c) == LeftOf(st, c.contextId);
    WalkLeftFull(words, children, states, c.wordId, c.childId, st, c.contextId);
    assert WalkOf(c.(contextId := 0, inLeftContext := false, inRightContext := true)) == RightOf(st, 0);
  }

  /** At the end of a short left context: past the gap, with no word. */
  lemma MoveLeftShort(words: seq<Option<Entry>>, children: seq<nat>, states: seq<VertexState>, c: Cursor, open: seq<Key>)
    requires CursorPos(words, children, states, c) && c.inLeftContext
    requires c.contextId + 1 == |c.vertexState.value.leftContext| != Order - 1
    ensures Moved(words, children, states, c, open,
                  c.(wordId := c.wordId + 1, contextId := c.contextId + 1, vertexState := None, inLeftContext := false), open, None, [])
  {
    LeftShortPos(words, children, states, c);
    LeftShortRest(words, children, states, c);
    MovedOut(words, children, states, c, open, c.(wordId := c.wordId + 1, contextId := c.contextId + 1, vertexState := None, inLeftContext := false));
  }

  lemma LeftShortPos(words: seq<Option<Entry>>, children: seq<nat>, states: seq<VertexState>, c: Cursor)
    requires CursorPos(words, children, states, c) && c.inLeftContext
    requires c.contextId + 1 == |c.vertexState.value.leftContext| != Order - 1
    ensures CursorPos(words, children, states, c.(wordId := c.wordId + 1, contextId := c.contextId + 1, vertexState := None, inLeftContext := false))
  {
    var st, c' := c.vertexState.value, c.(wordId := c.wordId + 1, contextId := c.contextId + 1, vertexState := None, inLeftContext := false);
    assert WalkOf(c') == Outside && Consistent(c');
    assert WalkOf(c) == LeftOf(st, c.contextId);
    WalkLeftShort(words, children, states, c.wordId, c.childId, st, c.contextId);
  }

  lemma LeftShortRest(words: seq<Option<Entry>>, children: seq<nat>, states: seq<VertexState>, c: Cursor)
    requires CursorPos(words, children, states, c) && c.inLeftContext
    requires c.contextId + 1 == |c.vertexState.value.leftContext| != Order - 1
    requires CursorPos(words, children, states, c.(wordId := c.wordId + 1, contextId := c.contextId + 1, vertexState := None, inLeftContext := false))
    ensures CursorRest(words, children, states, c)
            == CursorRest(words, children, states, c.(wordId := c.wordId + 1, contextId := c.contextId + 1, vertexState := None, inLeftContext := false))
  {
    var st, c' := c.vertexState.value, c.(wordId := c.wordId + 1, contextId := c.contextId + 1, vertexState := None, inLeftContext := false);
    assert WalkOf(c') == Outside && Consistent(c');
    assert WalkOf(c) == LeftOf(st, c.contextId);
    WalkLeftShort(words, children, states, c.wordId, c.childId, st, c.contextId);
  }

  /** Leaving a gap without a word: the same events to come, and a smaller measure. */
  lemma MovedOut(words: seq<Option<Entry>>, children: seq<nat>, states: seq<VertexState>, c: Cursor, open: seq<Key>, c': Cursor)
    requires CursorPos(words, children, states, c) && CursorPos(words, children, states, c')
    requires c.vertexState.Some? && c'.vertexState.None?
    requires CursorRest(words, children, states, c) == CursorRest(words, children, states, c')
    ensures Moved(words, children, states, c, open, c', open, None, [])
  {
    var rest := CursorRest(words, children, states, c);
    assert [] + rest == rest;
  }

  /** Inside a right context, not at its end: its next word. */
  lemma MoveRightNext(words: seq<Option<Entry>>, children: seq<nat>, states: seq<VertexState>, c: Cursor, open: seq<Key>)
    requires CursorPos(words, children, states, c) && c.inRightContext
    requires c.contextId + 1 < |c.vertexState.value.rightContext|
    ensures var st, i := c.vertexState.value, c.contextId + 1;
            Moved(words, children, states, c, open, c.(contextId := i), open, Some(st.rightContext[i]), [Feed(st.rightContext[i], InRight)])
  {
    var st := c.vertexState.value;
    assert WalkOf(c) == RightOf(st, c.contextId);
    WalkRightNext(words, children, states, c.wordId, c.childId, st, c.contextId);
    assert WalkOf(c.(contextId := c.contextId + 1)) == RightOf(st, c.contextId + 1);
  }

  /** At the end of a right context: past the gap, with no word. */
  lemma MoveRightEnd(words: seq<Option<Entry>>, children: seq<nat>, states: seq<VertexState>, c: Cursor, open: seq<Key>)
    requires CursorPos(words, children, states, c) && c.inRightContext
    requires c.contextId + 1 == |c.vertexState.value.rightContext|
    ensures Moved(words, children, states, c, open,
                  c.(wordId := c.wordId + 1, contextId := c.contextId + 1, vertexState := None, inRightContext := false), open, None, [])
  {
    var st := c.vertexState.value;
    assert WalkOf(c) == RightOf(st, c.contextId);
    WalkRightEnd(words, children, states, c.wordId, c.childId, st, c.contextId);
    var c' := c.(wordId := c.wordId + 1, contextId := c.contextId + 1, vertexState := None, inRightContext := false);
    assert WalkOf(c') == Outside;
    assert CursorPos(words, children, states, c');
    assert CursorRest(words, children, states, c) == CursorRest(words, children, states, c');
    MovedOut(words, children, states, c, open, c');
  }

  /**
   * One move of the walk of Score (mert/ForestRescore.cpp:147-191): the
   * next word of the edge's slots, or the first word of the next child's
   * left context, or a move inside the current child.
   */
  method NextWord(words: seq<Option<Entry>>, children: seq<nat>, states: seq<VertexState>, c: Cursor, open: seq<Key>)
    returns (c': Cursor, open': seq<Key>, word: Option<Entry>, ghost es: seq<Event>)
    requires CursorPos(words, children, states, c) && c.wordId < |words|
    ensures Moved(words, children, states, c, open, c', open', word, es)
  {
    if words[c.wordId].Some? {
      MoveWord(words, children, states, c, open);
      open' := open;
      word := words[c.wordId];
      c' := c.(wordId := c.wordId + 1);
      es := [Feed(word.value, Literal)];
    } else if !c.inLeftContext && !c.inRightContext {
      // entering a vertex
      MoveEnter(words, children, states, c, open);
      var st := states[children[c.childId]];
      open' := open;
      c' := Cursor(c.wordId, c.childId + 1, 0, Some(st), true, false);
      word := Some(st.leftContext[0]);
      es := [Feed(st.leftContext[0], InLeft(0))];
    } else if c.inLeftContext {
      c', open', word, es := NextInLeft(words, children, states, c, open);
    } else {
      c', open', word, es := NextInRight(words, children, states, c, open);
    }
  }

  /** A move inside a child's left context (mert/ForestRescore.cpp:161-179). */
  method NextInLeft(words: seq<Option<Entry>>, children: seq<nat>, states: seq<VertexState>, c: Cursor, open: seq<Key>)
    returns (c': Cursor, open': seq<Key>, word: Option<Entry>, ghost es: seq<Event>)
    requires CursorPos(words, children, states, c) && c.inLeftContext
    ensures Moved(words, children, states, c, open, c', open', word, es)
  {
    var st := c.vertexState.value;
    var contextId := c.contextId + 1;
    if contextId < |st.leftContext| {
      MoveLeftNext(words, children, states, c, open);
      open' := open;
      c' := c.(contextId := contextId);
      word := Some(st.leftContext[contextId]);
      es := [Feed(st.leftContext[contextId], InLeft(contextId))];
    } else if |st.leftContext| == Order - 1 {
      // a full left context: jump to the right context
      MoveLeftFull(words, children, states, c, open);
      open' := [];
      c' := c.(contextId := 0, inLeftContext := false, inRightContext := true);
      word := Some(st.rightContext[0]);
      es := [Clear, Feed(st.rightContext[0], InRight)];
    } else {
      // a short left context: the right context is not used
      MoveLeftShort(words, children, states, c, open);
      open' := open;
      c' := c.(wordId := c.wordId + 1, contextId := contextId, vertexState := None, inLeftContext := false);
      word := None;
      es := [];
    }
  }

  /** A move inside a child's right context (mert/ForestRescore.cpp:180-191). */
  method NextInRight(words: seq<Option<Entry>>, children: seq<nat>, states: seq<VertexState>, c: Cursor, open: seq<Key>)
    returns (c': Cursor, open': seq<Key>, word: Option<Entry>, ghost es: seq<Event>)
    requires CursorPos(words, children, states, c) && c.inRightContext
    ensures Moved(words, children, states, c, open, c', open', word, es)
  {
    var st := c.vertexState.value;
    var contextId := c.contextId + 1;
    open' := open;
    if contextId < |st.rightContext| {
      MoveRightNext(words, children, states, c, open);
      c' := c.(contextId := contextId);
      word := Some(st.rightContext[contextId]);
      es := [Feed(st.rightContext[contextId], InRight)];
    } else {
      // leaving the vertex
      MoveRightEnd(words, children, states, c, open);
      c' := c.(wordId := c.wordId + 1, contextId := contextId, vertexState := None, inRightContext := false);
      word := None;
      es := [];
    }
  }

  /**
   * The end of one iteration of the walk of Score: a boundary word is
   * skipped, any other word pushed with the insertion rule of its
   * position; the window then runs the rest of the stream to `final`.
   */
  method InsertWord(open: seq<Key>, counted: multiset<Key>, t: Entry, mode: Mode, boundary: set<nat>,
                    ghost es: seq<Event>, ghost next: seq<Event>, ghost w: Window, ghost final: Window)
    returns (open': seq<Key>, counted': multiset<Key>)
    requires Run(es + next, w, boundary) == final
    requires Run(es, w, boundary) == Step(Window(open, counted), Feed(t, mode), boundary)
    ensures Window(open', counted') == Step(Window(open, counted), Feed(t, mode), boundary)
    ensures Run(next, Window(open', counted'), boundary) == final
  {
    open', counted' := open, counted;
    if t.index in boundary {
      Advance(es, next, w, Window(open', counted'), boundary, final);
      return;
    }
    open', counted' := PushWord(open, counted, t.index, mode);
    Advance(es, next, w, Window(open', counted'), boundary, final);
  }

  /**
   * The walk of Score over an edge whose children all have states: the
   * multiset of n-grams it inserts is the one the word stream of the
   * edge gives.
   */
  method CountEdge(edge: Edge, states: seq<VertexState>, boundary: set<nat>) returns (ngramCounts: multiset<Key>)
    requires Aligned(edge) && ChildrenWritten(edge.children, states)
    ensures ngramCounts == Run(Events(edge.words, edge.children, states), EmptyWindow, boundary).counted
  {
    var words := edge.words;
    var children := edge.children;
    ghost var final := Run(Events(words, children, states), EmptyWindow, boundary);
    ngramCounts := multiset{};
    var cursor := Cursor(0, 0, 0, None, false, false);
    var openNgrams: seq<Key> := [];
    WalkStart(words, children, states);
    while cursor.wordId < |words|
      invariant CursorPos(words, children, states, cursor)
      invariant Run(CursorRest(words, children, states, cursor), Window(openNgrams, ngramCounts), boundary) == final
      decreases CursorMeasure(words, children, states, cursor)
    {
      ghost var w := Window(openNgrams, ngramCounts);
      ghost var es: seq<Event>;
      var currentWord: Option<Entry>;
      cursor, openNgrams, currentWord, es := NextWord(words, children, states, cursor, openNgrams);
      ghost var next := CursorRest(words, children, states, cursor);
      if currentWord.None? {
        assert es + next == next;
        continue;
      }
      var mode := ModeAt(cursor);
      assert Run(es, w, boundary) == Step(Window(openNgrams, ngramCounts), Feed(currentWord.value, mode), boundary) by {
        if |es| == 1 { RunOne(es[0], w, boundary); } else { RunTwo(es[0], es[1], w, boundary); }
      }
      openNgrams, ngramCounts := InsertWord(openNgrams, ngramCounts, currentWord.value, mode, boundary, es, next, w, final);
    }
    WalkFinish(words, children, states, cursor.wordId, cursor.childId, WalkOf(cursor));
  }

  // ---------------------------------------------------------------------
  // What the word stream counts
  // ---------------------------------------------------------------------

  /** Every open n-gram at position k has k+1 words, fewer than Order are open, and counted keys are 1..Order-grams. */
  ghost predicate Shaped(w: Window) {
    && |w.open| < Order
    && Staircase(w.open)
    && (forall g :: g in w.counted ==> 1 <= |g| <= Order)
  }

  /** The k-th open n-gram has k+1 words. */
  ghost predicate Staircase(open: seq<Key>) {
    forall k :: 0 <= k < |open| ==> |open[k]| == k + 1
  }

  lemma ExtendStaircase(open: seq<Key>, t: nat)
    requires Staircase(open)
    ensures Staircase(Extend(open, t))
  {
    var ext := Extend(open, t);
    forall k | 0 <= k < |ext| ensures |ext[k]| == k + 1 {
      if k > 0 {
        assert ext[k] == open[k - 1] + [t];
      }
    }
  }

  lemma TrimStaircase(ext: seq<Key>)
    requires Staircase(ext) && |ext| > 0
    ensures Staircase(ext[..|ext| - 1])
  {
    var open := ext[..|ext| - 1];
    forall k | 0 <= k < |open| ensures |open[k]| == k + 1 {
      assert open[k] == ext[k];
    }
  }

  lemma CountedOfOrders(ext: seq<Key>, mode: Mode)
    requires Staircase(ext) && |ext| <= Order
    ensures forall g :: g in CountedOf(ext, mode) ==> 1 <= |g| <= Order
  {
    forall g | g in CountedOf(ext, mode) ensures 1 <= |g| <= Order {
      CountedOfMembers(ext, mode, g);
    }
  }

  lemma PushShaped(w: Window, t: nat, mode: Mode)
    requires Shaped(w)
    ensures Shaped(Push(w, t, mode))
  {
    var ext := Extend(w.open, t);
    ExtendStaircase(w.open, t);
    CountedOfOrders(ext, mode);
    if |ext| >= Order {
      TrimStaircase(ext);
    }
  }

  /** The window keeps its shape through any stream of events. */
  lemma {:induction false} RunShaped(es: seq<Event>, w: Window, boundary: set<nat>)
    requires Shaped(w)
    ensures Shaped(Run(es, w, boundary))
    decreases |es|
  {
    if |es| > 0 {
      if es[0].Feed? && es[0].word.index !in boundary {
        PushShaped(w, es[0].word.index, es[0].mode);
      }
      RunShaped(es[1..], Step(w, es[0], boundary), boundary);
    }
  }

  /** `g` holds no word of `boundary`. */
  predicate KeyAvoids(g: Key, boundary: set<nat>) {
    forall j :: 0 <= j < |g| ==> g[j] !in boundary
  }

  /** No open or counted n-gram holds a boundary word. */
  ghost predicate Avoids(w: Window, boundary: set<nat>) {
    && (forall k :: 0 <= k < |w.open| ==> KeyAvoids(w.open[k], boundary))
    && (forall g :: g in w.counted ==> KeyAvoids(g, boundary))
  }

  lemma PushAvoids(w: Window, t: nat, mode: Mode, boundary: set<nat>)
    requires Avoids(w, boundary) && t !in boundary
    ensures Avoids(Push(w, t, mode), boundary)
  {
    var ext := Extend(w.open, t);
    forall k | 0 <= k < |ext| ensures KeyAvoids(ext[k], boundary) {
      if k > 0 {
        assert ext[k] == w.open[k - 1] + [t];
      }
    }
    forall g | g in CountedOf(ext, mode) ensures KeyAvoids(g, boundary) {
      CountedOfMembers(ext, mode, g);
    }
  }

  lemma {:induction false} RunAvoids(es: seq<Event>, w: Window, boundary: set<nat>)
    requires Avoids(w, boundary)
    ensures Avoids(Run(es, w, boundary), boundary)
    decreases |es|
  {
    if |es| > 0 {
      if es[0].Feed? && es[0].word.index !in boundary {
        PushAvoids(w, es[0].word.index, es[0].mode, boundary);
      }
      RunAvoids(es[1..], Step(w, es[0], boundary), boundary);
    }
  }

  /**
   * What the walk of an edge counts: n-grams of 1..Order words, none of
   * them holding a boundary word.
   */
  lemma CountedKeys(edge: Edge, states: seq<VertexState>, boundary: set<nat>, g: Key)
    requires Aligned(edge) && ChildrenWritten(edge.children, states)
    requires g in Run(Events(edge.words, edge.children, states), EmptyWindow, boundary).counted
    ensures 1 <= |g| <= Order && KeyAvoids(g, boundary)
  {
    var es := Events(edge.words, edge.children, states);
    RunShaped(es, EmptyWindow, boundary);
    RunAvoids(es, EmptyWindow, boundary);
  }

  /**
   * One fed word counts only n-grams that end with it, that the insertion
   * rule of its position keeps, and only when it is not a boundary word:
   * nothing in a right context, and in a left context at `p` only
   * n-grams longer than p + 1.
   */
  lemma FeedCounts(w: Window, t: Entry, mode: Mode, boundary: set<nat>, g: Key)
    requires Step(w, Feed(t, mode), boundary).counted[g] > w.counted[g]
    ensures t.index !in boundary && Countable(mode, |g|) && 0 < |g| && g[|g| - 1] == t.index
  {
    var ext := Extend(w.open, t.index);
    CountedOfMembers(ext, mode, g);
    var k :| 0 <= k < |ext| && ext[k] == g && Countable(mode, |g|);
    if k > 0 {
      assert g == w.open[k - 1] + [t.index];
    }
  }

  /** Counting only adds: a window's counted n-grams are kept and the rest of its run does not depend on them. */
  lemma {:induction false} RunCounted(es: seq<Event>, open: seq<Key>, counted: multiset<Key>, boundary: set<nat>)
    ensures var clean := Run(es, Window(open, multiset{}), boundary);
            Run(es, Window(open, counted), boundary) == Window(clean.open, counted + clean.counted)
    decreases |es|
  {
    if |es| > 0 {
      var w, w0 := Step(Window(open, counted), es[0], boundary), Step(Window(open, multiset{}), es[0], boundary);
      assert w == Window(w0.open, counted + w0.counted);
      RunCounted(es[1..], w0.open, counted, boundary);
      RunCounted(es[1..], w0.open, w0.counted, boundary);
      RunCounted(es[1..], w0.open, counted + w0.counted, boundary);
    }
  }

  /**
   * The clear of the jump from a full left context to the right one: what
   * the walk counts after it does not depend on the words before it, so
   * no n-gram spans from a left context into the right one.
   */
  lemma ClearForgets(es: seq<Event>, w: Window, boundary: set<nat>)
    ensures var after := Run(es, EmptyWindow, boundary);
            Run([Clear] + es, w, boundary) == Window(after.open, w.counted + after.counted)
  {
    assert ([Clear] + es)[0] == Clear && ([Clear] + es)[1..] == es;
    RunCounted(es, [], w.counted, boundary);
  }

  /** The literal words of a gap-free slot list that are not boundary words. */
  function Kept(words: seq<Option<Entry>>, boundary: set<nat>): seq<nat> {
    if |words| == 0 then []
    else (if words[0].Some? && words[0].value.index !in boundary then [words[0].value.index] else []) + Kept(words[1..], boundary)
  }

  /** Pushing the tokens `ws` one after the other as literal words. */
  function PushAll(w: Window, ws: seq<nat>): Window
    decreases |ws|
  {
    if |ws| == 0 then w else PushAll(Push(w, ws[0], Literal), ws[1..])
  }

  lemma {:induction false} PushAllSnoc(w: Window, ws: seq<nat>, t: nat)
    ensures PushAll(w, ws + [t]) == Push(PushAll(w, ws), t, Literal)
    decreases |ws|
  {
    if |ws| == 0 {
      assert ([] + [t])[1..] == [];
    } else {
      assert (ws + [t])[0] == ws[0] && (ws + [t])[1..] == ws[1..] + [t];
      PushAllSnoc(Push(w, ws[0], Literal), ws[1..], t);
    }
  }

  lemma {:induction false} PushAllLine(ws: seq<nat>)
    ensures PushAll(EmptyWindow, ws) == LineWindow(ws)
    decreases |ws|
  {
    if |ws| > 0 {
      PushAllLine(ws[..|ws| - 1]);
      PushAllSnoc(EmptyWindow, ws[..|ws| - 1], ws[|ws| - 1]);
      assert ws[..|ws| - 1] + [ws[|ws| - 1]] == ws;
    }
  }

  lemma {:induction false} RunGapFree(words: seq<Option<Entry>>, states: seq<VertexState>, w: Window, boundary: set<nat>)
    requires NullCount(words) == 0
    ensures Fits(words, [], states)
    ensures Run(Events(words, [], states), w, boundary) == PushAll(w, Kept(words, boundary))
    decreases |words|
  {
    if |words| > 0 {
      NullCountFront(words);
      var x := words[0].value;
      var rest := Events(words[1..], [], states);
      assert Events(words, [], states) == [Feed(x, Literal)] + rest;
      assert ([Feed(x, Literal)] + rest)[1..] == rest;
      var kept := Kept(words[1..], boundary);
      RunGapFree(words[1..], states, Step(w, Feed(x, Literal), boundary), boundary);
      if x.index !in boundary {
        assert Kept(words, boundary) == [x.index] + kept;
        assert ([x.index] + kept)[0] == x.index && ([x.index] + kept)[1..] == kept;
      } else {
        assert Kept(words, boundary) == [] + kept == kept;
      }
    }
  }

  /**
   * An edge without gaps counts, as Load does for a reference line, every
   * n-gram of order 1..Order of its non-boundary words once per
   * occurrence, and nothing else.
   */
  lemma GapFreeCounts(edge: Edge, states: seq<VertexState>, boundary: set<nat>, g: Key)
    requires Aligned(edge) && |edge.children| == 0
    ensures Fits(edge.words, [], states)
    ensures Run(Events(edge.words, [], states), EmptyWindow, boundary).counted[g] == LineCount(Kept(edge.words, boundary), g)
  {
    RunGapFree(edge.words, states, EmptyWindow, boundary);
    PushAllLine(Kept(edge.words, boundary));
    LineWindowCounts(Kept(edge.words, boundary), g);
  }
}
