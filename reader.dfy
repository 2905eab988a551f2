/**
 * The hypergraph text reader of mert/Hypergraph.cpp ("Kenneth's
 * hypergraph", cdec target-graph format): a header line, comment lines
 * starting with '#', a "<vertices> <edges>" line, then per vertex its
 * incoming-edge count followed by that many edge lines
 * "slot slot ... ||| name=value ...".
 */
module GraphReader {
  import opened Wrappers
  import opened Text
  import opened Vocabulary
  import opened Hypergraph

  /** util::FilePiece as a cursor over the lines of the input. */
  class LineReader {
    const lines: seq<string>
    var pos: nat

    ghost predicate Valid()
      reads this
    {
      pos <= |lines|
    }

    constructor (lines: seq<string>)
      ensures Valid() && this.lines == lines && pos == 0
    {
      this.lines := lines;
      pos := 0;
    }

    /** ReadLine: the next line, or EndOfFileException past the last one. */
    method ReadLine() returns (r: Result<string>)
      requires Valid()
      modifies this
      ensures Valid()
      ensures old(pos) < |lines| ==> r == Ok(lines[old(pos)]) && pos == old(pos) + 1
      ensures old(pos) == |lines| ==> r == Err(EndOfFile) && pos == old(pos)
    {
      if pos == |lines| {
        return Err(EndOfFile);
      }
      r := Ok(lines[pos]);
      pos := pos + 1;
    }
  }

  predicate IsComment(line: string) {
    StartsWith(line, "#")
  }

  const Header: string := "# target ||| features"

  /** Index of the first non-comment line at or after `from` (|lines| if none). */
  function FirstNonComment(lines: seq<string>, from: nat): (j: nat)
    requires from <= |lines|
    ensures from <= j <= |lines|
    ensures forall k :: from <= k < j ==> IsComment(lines[k])
    ensures j < |lines| ==> !IsComment(lines[j])
    decreases |lines| - from
  {
    if from == |lines| || !IsComment(lines[from]) then from else FirstNonComment(lines, from + 1)
  }

  /** NextLine: skips every line starting with '#' and returns the first other line. */
  method NextLine(from: LineReader) returns (r: Result<string>)
    requires from.Valid()
    modifies from
    ensures from.Valid()
    ensures var j := FirstNonComment(from.lines, old(from.pos));
            && (j < |from.lines| ==> r == Ok(from.lines[j]) && from.pos == j + 1)
            && (j == |from.lines| ==> r == Err(EndOfFile))
  {
    ghost var start := from.pos;
    r := from.ReadLine();
    while r.Ok? && IsComment(r.value)
      invariant from.Valid() && start <= from.pos
      invariant r.Ok? ==> start < from.pos && r.value == from.lines[from.pos - 1]
      invariant r.Err? ==> r.error == EndOfFile && from.pos == |from.lines|
      invariant forall k :: start <= k < from.pos - 1 ==> IsComment(from.lines[k])
      invariant r.Err? ==> forall k :: start <= k < from.pos ==> IsComment(from.lines[k])
      decreases |from.lines| - from.pos + (if r.Ok? then 1 else 0)
    {
      r := from.ReadLine();
    }
  }

  /** What one slot token of an edge line denotes. */
  datatype Slot = Terminal(text: string) | NonTerminal(child: nat) | Malformed

  /**
   * A token "[...]" is a non-terminal, whose content must be a vertex
   * number; any other token is a word.
   */
  function ClassifySlot(got: string): (s: Slot)
    ensures s.Terminal? <==> !(|got| > 0 && got[0] == '[' && got[|got| - 1] == ']')
    ensures s.Terminal? ==> s.text == got
    ensures s.NonTerminal? ==> |got| >= 3 && IsDigits(got[1..|got| - 1]) && s.child == DigitsValue(got[1..|got| - 1])
    ensures s.Malformed? ==> |got| >= 2 && !IsDigits(got[1..|got| - 1])
  {
    if |got| > 0 && got[0] == '[' && got[|got| - 1] == ']' then
      var inner := got[1..|got| - 1];
      if IsDigits(inner) then NonTerminal(DigitsValue(inner)) else Malformed
    else Terminal(got)
  }

  /** Every word token of `toks` has been interned in `m`. */
  predicate TerminalsIn(toks: seq<string>, m: map<string, nat>) {
    forall i :: 0 <= i < |toks| && ClassifySlot(toks[i]).Terminal? ==> toks[i] in m
  }

  /** The slot list an edge line yields: None for a gap, the interned entry for a word. */
  function SlotWords(toks: seq<string>, m: map<string, nat>): (r: seq<Option<Entry>>)
    requires TerminalsIn(toks, m)
    ensures |r| == |toks|
  {
    if |toks| == 0 then []
    else
      var last := toks[|toks| - 1];
      SlotWords(toks[..|toks| - 1], m) + [if ClassifySlot(last).Terminal? then Some(Entry(last, m[last])) else None]
  }

  /** The child list an edge line yields: the vertex numbers of its gaps, in order. */
  function GapChildren(toks: seq<string>): seq<nat> {
    if |toks| == 0 then []
    else
      GapChildren(toks[..|toks| - 1])
      + match ClassifySlot(toks[|toks| - 1]) case NonTerminal(k) => [k] case _ => []
  }

  /** The error of one slot: a malformed gap, or a gap to a vertex not yet allocated. */
  function SlotError(got: string, vertexSize: nat): Option<Error> {
    match ClassifySlot(got)
    case Malformed => Some(BadNonTerminal)
    case NonTerminal(k) => if k >= vertexSize then Some(VertexOutOfRange) else None
    case Terminal(_) => None
  }

  /** The first slot error of an edge line, in slot order. */
  function SlotsCheck(toks: seq<string>, vertexSize: nat): Option<Error> {
    if |toks| == 0 then None
    else if SlotsCheck(toks[..|toks| - 1], vertexSize).Some? then SlotsCheck(toks[..|toks| - 1], vertexSize)
    else SlotError(toks[|toks| - 1], vertexSize)
  }

  /** One more slot token: one more word (or gap) and, for a gap, one more child. */
  lemma SlotSnoc(done: seq<string>, got: string, m: map<string, nat>)
    requires TerminalsIn(done, m) && (ClassifySlot(got).Terminal? ==> got in m)
    ensures TerminalsIn(done + [got], m)
    ensures SlotWords(done + [got], m) == SlotWords(done, m) + [if ClassifySlot(got).Terminal? then Some(Entry(got, m[got])) else None]
    ensures GapChildren(done + [got]) == GapChildren(done) + match ClassifySlot(got) case NonTerminal(k) => [k] case _ => []
  {
    assert (done + [got])[..|done|] == done;
  }

  /** Interning more tokens does not change the entries of an edge line's words. */
  lemma {:induction false} SlotWordsStable(toks: seq<string>, m: map<string, nat>, m': map<string, nat>)
    requires TerminalsIn(toks, m)
    requires Extends(m, m')
    ensures TerminalsIn(toks, m') && SlotWords(toks, m') == SlotWords(toks, m)
  {
    if |toks| > 0 {
      SlotWordsStable(toks[..|toks| - 1], m, m');
    }
  }

  /** NULL words correspond 1:1 with children: the i-th gap slot is the i-th child. */
  lemma {:induction false} GapsAlignWithChildren(toks: seq<string>, m: map<string, nat>, vertexSize: nat)
    requires TerminalsIn(toks, m) && SlotsCheck(toks, vertexSize).None?
    ensures NullCount(SlotWords(toks, m)) == |GapChildren(toks)|
  {
    if |toks| > 0 {
      var prefix := toks[..|toks| - 1];
      assert TerminalsIn(prefix, m);
      GapsAlignWithChildren(prefix, m, vertexSize);
      var w := SlotWords(toks, m);
      assert w[..|w| - 1] == SlotWords(prefix, m);
      assert NullCount(w) == NullCount(w[..|w| - 1]) + (if w[|w| - 1].None? then 1 else 0);
      match ClassifySlot(toks[|toks| - 1])
      case NonTerminal(k) =>
        assert GapChildren(toks) == GapChildren(prefix) + [k];
      case Terminal(_) =>
        assert GapChildren(toks) == GapChildren(prefix);
    }
  }

  /** The slot check reports the first error: once a prefix fails, the whole line fails the same way. */
  lemma {:induction false} SlotsCheckPrefix(toks: seq<string>, k: nat, vertexSize: nat)
    requires k <= |toks| && SlotsCheck(toks[..k], vertexSize).Some?
    ensures SlotsCheck(toks, vertexSize) == SlotsCheck(toks[..k], vertexSize)
    decreases |toks| - k
  {
    if k < |toks| {
      assert toks[..|toks| - 1][..k] == toks[..k];
      SlotsCheckPrefix(toks[..|toks| - 1], k, vertexSize);
    } else {
      assert toks[..k] == toks;
    }
  }

  /** An edge line that passes the slot check only refers to allocated vertices. */
  lemma {:induction false} CheckedChildrenInRange(toks: seq<string>, vertexSize: nat)
    requires SlotsCheck(toks, vertexSize).None?
    ensures forall i :: 0 <= i < |GapChildren(toks)| ==> GapChildren(toks)[i] < vertexSize
  {
    if |toks| > 0 {
      CheckedChildrenInRange(toks[..|toks| - 1], vertexSize);
    }
  }

  /**
   * The feature list of an edge line: each token is cut at its last '='
   * into name and value, an empty token ends the list, a token without
   * '=' or with a NaN value (None from `toFloat`) is an error. A repeated
   * name keeps its last value.
   */
  function Features(toks: seq<string>, toFloat: string -> Option<real>, acc: map<string, real>): (r: Result<map<string, real>>)
    decreases |toks|
  {
    if |toks| == 0 || |toks[0]| == 0 then Ok(acc)
    else
      var fv := toks[0];
      match LastIndexOf(fv, '=')
      case None => Err(BadFeature)
      case Some(eq) =>
        match toFloat(fv[eq + 1..])
        case None => Err(BadWeight)
        case Some(v) => Features(toks[1..], toFloat, acc[fv[..eq] := v])
  }

  /** Nothing after the first empty feature token is read. */
  lemma {:induction false} FeaturesStopAtEmpty(toks: seq<string>, toFloat: string -> Option<real>, acc: map<string, real>, k: nat)
    requires k < |toks| && |toks[k]| == 0
    requires forall i :: 0 <= i < k ==> |toks[i]| > 0
    ensures Features(toks, toFloat, acc) == Features(toks[..k], toFloat, acc)
    decreases k
  {
    if k > 0 {
      var fv := toks[0];
      assert toks[..k][0] == fv && toks[..k][1..] == toks[1..][..k - 1];
      match LastIndexOf(fv, '=')
      case None =>
      case Some(eq) =>
        match toFloat(fv[eq + 1..])
        case None =>
        case Some(v) => FeaturesStopAtEmpty(toks[1..], toFloat, acc[fv[..eq] := v], k - 1);
    }
  }

  /** A feature token is its name, '=', and a value without '=' (the split is at the last '='). */
  lemma FeatureSplit(fv: string)
    requires LastIndexOf(fv, '=').Some?
    ensures var eq := LastIndexOf(fv, '=').value;
            fv == fv[..eq] + "=" + fv[eq + 1..] && '=' !in fv[eq + 1..]
  {
    var eq := LastIndexOf(fv, '=').value;
    assert fv == fv[..eq] + [fv[eq]] + fv[eq + 1..];
  }

  /**
   * One step of the slot loop of ReadEdge: the token `got` after the
   * slots `done` becomes a gap with its child, or a word through the
   * vocabulary, or the error that ends the edge.
   */
  method AddSlot(graph: Graph, e: nat, ghost done: seq<string>, got: string) returns (err: Option<Error>)
    requires graph.Valid() && e < graph.edges.Capacity() && e < graph.EdgeSize()
    requires SlotsRead(graph.GetEdge(e), done, graph.vocab.index, graph.VertexSize())
    modifies graph.edges.data, graph.vocab
    ensures graph.Valid()
    ensures Extends(old(graph.vocab.index), graph.vocab.index)
    ensures graph.edges.data[..] == old(graph.edges.data[..])[e := graph.GetEdge(e)]
    ensures err == SlotError(got, graph.VertexSize())
    ensures err.None? ==> SlotsRead(graph.GetEdge(e), done + [got], graph.vocab.index, graph.VertexSize())
  {
    var toks := done + [got];
    assert toks[..|toks| - 1] == done;
    match ClassifySlot(got)
    case Malformed =>
      return Some(BadNonTerminal);
    case NonTerminal(child) =>
      if child >= graph.VertexSize() {
        return Some(VertexOutOfRange);
      }
      AddGap(graph, e, done, got, child);
      return None;
    case Terminal(_) =>
      AddTerminal(graph, e, done, got);
      return None;
  }

  /** The edge holds the words and children of the slot tokens `toks`, all of which pass the slot check. */
  predicate SlotsRead(edge: Edge, toks: seq<string>, m: map<string, nat>, vertexSize: nat) {
    && SlotsCheck(toks, vertexSize).None?
    && TerminalsIn(toks, m)
    && edge == Edge(SlotWords(toks, m), GapChildren(toks), map[])
  }

  /** A non-terminal slot: a gap in the words and `child` appended to the children. */
  method AddGap(graph: Graph, e: nat, ghost done: seq<string>, ghost got: string, child: nat)
    requires graph.Valid() && e < graph.edges.Capacity() && e < graph.EdgeSize()
    requires ClassifySlot(got) == NonTerminal(child)
    requires TerminalsIn(done, graph.vocab.index)
    requires graph.GetEdge(e) == Edge(SlotWords(done, graph.vocab.index), GapChildren(done), map[])
    modifies graph.edges.data
    ensures graph.Valid()
    ensures graph.edges.data[..] == old(graph.edges.data[..])[e := graph.GetEdge(e)]
    ensures TerminalsIn(done + [got], graph.vocab.index)
    ensures graph.GetEdge(e) == Edge(SlotWords(done + [got], graph.vocab.index), GapChildren(done + [got]), map[])
  {
    SlotSnoc(done, got, graph.vocab.index);
    graph.AddWord(e, None);
    graph.AddChild(e, child);
  }

  /** A terminal slot: the word, interned, appended to the words. */
  method AddTerminal(graph: Graph, e: nat, ghost done: seq<string>, got: string)
    requires graph.Valid() && e < graph.edges.Capacity() && e < graph.EdgeSize()
    requires ClassifySlot(got).Terminal?
    requires TerminalsIn(done, graph.vocab.index)
    requires graph.GetEdge(e) == Edge(SlotWords(done, graph.vocab.index), GapChildren(done), map[])
    modifies graph.edges.data, graph.vocab
    ensures graph.Valid()
    ensures Extends(old(graph.vocab.index), graph.vocab.index)
    ensures graph.edges.data[..] == old(graph.edges.data[..])[e := graph.GetEdge(e)]
    ensures TerminalsIn(done + [got], graph.vocab.index)
    ensures graph.GetEdge(e) == Edge(SlotWords(done + [got], graph.vocab.index), GapChildren(done + [got]), map[])
  {
    ghost var before := graph.vocab.index;
    ghost var edge0 := graph.GetEdge(e);
    var found := graph.vocab.FindOrAdd(got);
    TerminalStep(done, got, before, graph.vocab.index, edge0);
    graph.AddWord(e, Some(found));
  }

  /** A word slot after the slots `done`, interned in `m'`, extends the edge by that word's entry. */
  lemma TerminalStep(done: seq<string>, got: string, m: map<string, nat>, m': map<string, nat>, edge: Edge)
    requires ClassifySlot(got).Terminal? && TerminalsIn(done, m) && Extends(m, m') && got in m'
    requires edge == Edge(SlotWords(done, m), GapChildren(done), map[])
    ensures TerminalsIn(done + [got], m')
    ensures edge.(words := edge.words + [Some(Entry(got, m'[got]))]) == Edge(SlotWords(done + [got], m'), GapChildren(done + [got]), map[])
  {
    SlotWordsStable(done, m, m');
    SlotSnoc(done, got, m');
  }

  /**
   * The slot loop of ReadEdge: each token becomes one slot of edge `e`;
   * the first bad slot ends the edge with its error.
   */
  method AddSlots(graph: Graph, e: nat, slots: seq<string>) returns (err: Option<Error>)
    requires graph.Valid() && e < graph.edges.Capacity() && e < graph.EdgeSize()
    requires graph.GetEdge(e) == BlankEdge
    modifies graph.edges.data, graph.vocab
    ensures graph.Valid()
    ensures Extends(old(graph.vocab.index), graph.vocab.index)
    ensures graph.edges.data[..] == old(graph.edges.data[..])[e := graph.GetEdge(e)]
    ensures err == SlotsCheck(slots, graph.VertexSize())
    ensures err.None? ==> SlotsRead(graph.GetEdge(e), slots, graph.vocab.index, graph.VertexSize())
  {
    ghost var pool0 := graph.edges.data[..];
    assert slots[..0] == [];
    var i := 0;
    while i < |slots|
      invariant 0 <= i <= |slots|
      invariant graph.Valid()
      invariant Extends(old(graph.vocab.index), graph.vocab.index)
      invariant graph.edges.data[..] == pool0[e := graph.GetEdge(e)]
      invariant SlotsRead(graph.GetEdge(e), slots[..i], graph.vocab.index, graph.VertexSize())
    {
      assert slots[..i + 1] == slots[..i] + [slots[i]];
      ghost var pool1 := graph.edges.data[..];
      ghost var edge1 := graph.GetEdge(e);
      ghost var index1 := graph.vocab.index;
      err := AddSlot(graph, e, slots[..i], slots[i]);
      UpdateTwice(pool0, e, edge1, graph.GetEdge(e));
      ExtendsTrans(old(graph.vocab.index), index1, graph.vocab.index);
      SlotsCheckStep(slots, i, graph.VertexSize());
      if err.Some? {
        SlotsCheckPrefix(slots, i + 1, graph.VertexSize());
        return;
      }
      i := i + 1;
    }
    assert slots[..i] == slots;
    return None;
  }

  /** The slot check of one more token: the check so far, then that token's own. */
  lemma SlotsCheckStep(toks: seq<string>, i: nat, vertexSize: nat)
    requires i < |toks| && SlotsCheck(toks[..i], vertexSize).None?
    ensures SlotsCheck(toks[..i + 1], vertexSize) == SlotError(toks[i], vertexSize)
  {
    assert toks[..i + 1][..i] == toks[..i];
  }

  /**
   * The feature loop of ReadEdge: sets one feature of edge `e` per token
   * until the first empty token.
   */
  method AddFeatures(graph: Graph, e: nat, toks: seq<string>, toFloat: string -> Option<real>) returns (err: Option<Error>)
    requires graph.Valid() && e < graph.edges.Capacity() && e < graph.EdgeSize()
    modifies graph.edges.data
    ensures graph.Valid()
    ensures graph.edges.data[..] == old(graph.edges.data[..])[e := graph.GetEdge(e)]
    ensures var feats := Features(toks, toFloat, old(graph.GetEdge(e)).features);
            && (feats.Err? ==> err == Some(feats.error))
            && (feats.Ok? ==> err.None? && graph.GetEdge(e) == old(graph.GetEdge(e)).(features := feats.value))
  {
    ghost var pool0 := graph.edges.data[..];
    ghost var edge0 := graph.GetEdge(e);
    ghost var feats := Features(toks, toFloat, edge0.features);
    var k := 0;
    var acc := edge0.features;
    assert toks[0..] == toks;
    while k < |toks| && |toks[k]| > 0
      invariant 0 <= k <= |toks|
      invariant graph.Valid()
      invariant graph.edges.data[..] == pool0[e := edge0.(features := acc)]
      invariant feats == Features(toks[k..], toFloat, acc)
    {
      ghost var acc' := acc;
      err, acc' := AddFeatureToken(graph, e, toks, k, toFloat, pool0, edge0, acc);
      if err.Some? {
        return;
      }
      acc := acc';
      k := k + 1;
    }
    if k < |toks| {
      FeaturesAt(toks, k, toFloat, acc);
    }
    assert feats == Ok(acc);
    assert graph.GetEdge(e) == graph.edges.data[..][e];
    return None;
  }

  /**
   * One token of the feature loop: `name=value` split at the last `=`,
   * BadFeature without one, BadWeight when the value is no number,
   * otherwise the feature set on the edge.
   */
  method AddFeatureToken(graph: Graph, e: nat, toks: seq<string>, k: nat, toFloat: string -> Option<real>,
                         ghost pool0: seq<Edge>, ghost edge0: Edge, ghost acc: map<string, real>)
    returns (err: Option<Error>, ghost acc': map<string, real>)
    requires graph.Valid() && e < graph.edges.Capacity() && e < graph.EdgeSize() && e < |pool0|
    requires k < |toks| && |toks[k]| > 0
    requires graph.edges.data[..] == pool0[e := edge0.(features := acc)]
    modifies graph.edges.data
    ensures graph.Valid()
    ensures err.Some? ==> Features(toks[k..], toFloat, acc) == Err(err.value) && unchanged(graph.edges.data)
    ensures err.None? ==> Features(toks[k..], toFloat, acc) == Features(toks[k + 1..], toFloat, acc')
    ensures err.None? ==> graph.edges.data[..] == pool0[e := edge0.(features := acc')]
  {
    acc' := acc;
    var fv := toks[k];
    var equals := LastIndexOf(fv, '=');
    FeaturesAt(toks, k, toFloat, acc);
    if equals.None? {
      return Some(BadFeature), acc';
    }
    var name := fv[..equals.value];
    var value := fv[equals.value + 1..];
    var score := toFloat(value);
    if score.None? {
      return Some(BadWeight), acc';
    }
    SetFeature(graph, e, name, score.value, pool0, edge0, acc);
    acc' := acc[name := score.value];
    err := None;
  }

  /** AddFeature on an edge that is `edge0` with the features `acc`, inside the pool `pool0`. */
  method SetFeature(graph: Graph, e: nat, name: string, value: real, ghost pool0: seq<Edge>, ghost edge0: Edge, ghost acc: map<string, real>)
    requires graph.Valid() && e < graph.edges.Capacity() && e < graph.EdgeSize() && e < |pool0|
    requires graph.edges.data[..] == pool0[e := edge0.(features := acc)]
    modifies graph.edges.data
    ensures graph.Valid()
    ensures graph.edges.data[..] == pool0[e := edge0.(features := acc[name := value])]
  {
    assert graph.GetEdge(e) == graph.edges.data[..][e] == edge0.(features := acc);
    graph.AddFeature(e, name, value);
    UpdateTwice(pool0, e, edge0.(features := acc), edge0.(features := acc[name := value]));
  }

  /** The feature list from token `k` on: ends, fails or continues as token `k` says. */
  lemma FeaturesAt(toks: seq<string>, k: nat, toFloat: string -> Option<real>, acc: map<string, real>)
    requires k < |toks|
    ensures |toks[k]| == 0 ==> Features(toks[k..], toFloat, acc) == Ok(acc)
    ensures |toks[k]| > 0 && LastIndexOf(toks[k], '=').None? ==> Features(toks[k..], toFloat, acc) == Err(BadFeature)
    ensures |toks[k]| > 0 && LastIndexOf(toks[k], '=').Some? ==>
              var eq := LastIndexOf(toks[k], '=').value;
              match toFloat(toks[k][eq + 1..])
              case None => Features(toks[k..], toFloat, acc) == Err(BadWeight)
              case Some(v) => Features(toks[k..], toFloat, acc) == Features(toks[k + 1..], toFloat, acc[toks[k][..eq] := v])
  {
    assert toks[k..][0] == toks[k] && toks[k..][1..] == toks[k + 1..];
  }

  /**
   * The content an edge line gives an edge, interning its words in `m`:
   * the slots before "|||" and the features after it.
   */
  predicate EdgeFromLine(edge: Edge, line: string, toFloat: string -> Option<real>, m: map<string, nat>) {
    var fields := PipeFields(line);
    var slots := Split(fields.0, ' ');
    var feats := Features(Split(fields.1, ' '), toFloat, map[]);
    && TerminalsIn(slots, m) && feats.Ok?
    && edge == Edge(SlotWords(slots, m), GapChildren(slots), feats.value)
  }

  /** One gap per child, and each child an allocated vertex. */
  predicate ChildrenBelow(edge: Edge, vertexSize: nat) {
    Aligned(edge) && forall c :: 0 <= c < |edge.children| ==> edge.children[c] < vertexSize
  }

  /**
   * ReadEdge: allocates an edge, reads the next non-comment line and
   * fills the edge's slots, children and features from it.
   */
  method ReadEdge(from: LineReader, graph: Graph, toFloat: string -> Option<real>) returns (r: Result<nat>)
    requires from.Valid() && graph.Valid()
    modifies from, graph.edges`current, graph.edges.data, graph.vocab
    ensures from.Valid() && graph.Valid()
    ensures graph.edges.Capacity() == old(graph.edges.Capacity())
    ensures graph.EdgeSize() == old(graph.EdgeSize()) + 1
    ensures Extends(old(graph.vocab.index), graph.vocab.index)
    ensures var n := old(graph.EdgeSize()); n <= graph.edges.Capacity() ==> graph.edges.data[..n] == old(graph.edges.data[..n])
    ensures old(graph.EdgeSize()) >= graph.edges.Capacity() ==> r == Err(AllocatingPastEnd)
    ensures old(graph.EdgeSize()) < graph.edges.Capacity() ==>
              var j := FirstNonComment(from.lines, old(from.pos));
              && (j == |from.lines| ==> r == Err(EndOfFile))
              && (j < |from.lines| ==> from.pos == j + 1 && r == EdgeOutcome(from.lines[j], graph.VertexSize(), toFloat, old(graph.EdgeSize())))
              && (j < |from.lines| && r.Ok? ==> EdgeFromLine(graph.GetEdge(r.value), from.lines[j], toFloat, graph.vocab.index))
    ensures r.Ok? ==> ChildrenBelow(graph.GetEdge(r.value), graph.VertexSize())
  {
    var newEdge := graph.NewEdge();
    if newEdge.Err? {
      return Err(newEdge.error);
    }
    r := ReadEdgeLine(from, graph, toFloat, newEdge.value);
  }

  /** The line part of ReadEdge: the next non-comment line, read into the newly allocated edge `e`. */
  method ReadEdgeLine(from: LineReader, graph: Graph, toFloat: string -> Option<real>, e: nat) returns (r: Result<nat>)
    requires from.Valid() && graph.Valid()
    requires e < graph.edges.Capacity() && e + 1 == graph.EdgeSize() && graph.GetEdge(e) == BlankEdge
    modifies from, graph.edges.data, graph.vocab
    ensures from.Valid() && graph.Valid()
    ensures Extends(old(graph.vocab.index), graph.vocab.index)
    ensures graph.edges.data[..e] == old(graph.edges.data[..e])
    ensures var j := FirstNonComment(from.lines, old(from.pos));
            && (j == |from.lines| ==> r == Err(EndOfFile))
            && (j < |from.lines| ==> from.pos == j + 1 && r == EdgeOutcome(from.lines[j], graph.VertexSize(), toFloat, e))
            && (j < |from.lines| && r.Ok? ==> EdgeFromLine(graph.GetEdge(e), from.lines[j], toFloat, graph.vocab.index))
    ensures r.Ok? ==> r.value == e && ChildrenBelow(graph.GetEdge(e), graph.VertexSize())
  {
    ghost var j := FirstNonComment(from.lines, from.pos);
    var line := NextLine(from);
    if line.Err? {
      return Err(line.error);
    }
    assert line.value == from.lines[j];
    ghost var pool0 := graph.edges.data[..];
    r := FillEdge(graph, e, line.value, toFloat);
    assert graph.edges.data[..e] == pool0[..e];
  }

  /** The slots and features of one edge line, written into the newly allocated edge `e`. */
  method FillEdge(graph: Graph, e: nat, line: string, toFloat: string -> Option<real>) returns (r: Result<nat>)
    requires graph.Valid() && e < graph.edges.Capacity() && e < graph.EdgeSize()
    requires graph.GetEdge(e) == BlankEdge
    modifies graph.edges.data, graph.vocab
    ensures graph.Valid()
    ensures Extends(old(graph.vocab.index), graph.vocab.index)
    ensures graph.edges.data[..] == old(graph.edges.data[..])[e := graph.GetEdge(e)]
    ensures r == EdgeOutcome(line, graph.VertexSize(), toFloat, e)
    ensures r.Ok? ==> EdgeFromLine(graph.GetEdge(e), line, toFloat, graph.vocab.index) && ChildrenBelow(graph.GetEdge(e), graph.VertexSize())
  {
    ghost var pool0 := graph.edges.data[..];
    var fields := PipeFields(line);
    var slots := Split(fields.0, ' ');
    var err := AddSlots(graph, e, slots);
    if err.Some? {
      assert SlotsCheck(slots, graph.VertexSize()) == err;
      return Err(err.value);
    }
    ghost var edge1 := graph.GetEdge(e);
    var ftoks := Split(fields.1, ' ');
    var ferr := AddFeatures(graph, e, ftoks, toFloat);
    EdgeRead(line, graph.VertexSize(), toFloat, e, graph.vocab.index, edge1, graph.GetEdge(e), ferr);
    UpdateTwice(pool0, e, edge1, graph.GetEdge(e));
    r := if ferr.Some? then Err(ferr.value) else Ok(e);
  }

  /**
   * The slots of `line` read into `edge1` and its features then set, as
   * AddFeatures states, giving `edge2` and `err`: the outcome and the
   * content of the edge are those the line describes.
   */
  lemma EdgeRead(line: string, vs: nat, toFloat: string -> Option<real>, e: nat, m: map<string, nat>, edge1: Edge, edge2: Edge, err: Option<Error>)
    requires SlotsRead(edge1, Split(PipeFields(line).0, ' '), m, vs)
    requires var feats := Features(Split(PipeFields(line).1, ' '), toFloat, map[]);
             && (feats.Err? ==> err == Some(feats.error))
             && (feats.Ok? ==> err.None? && edge2 == edge1.(features := feats.value))
    ensures (if err.Some? then Err(err.value) else Ok(e)) == EdgeOutcome(line, vs, toFloat, e)
    ensures err.None? ==> EdgeFromLine(edge2, line, toFloat, m) && ChildrenBelow(edge2, vs)
  {
    var slots := Split(PipeFields(line).0, ' ');
    GapsAlignWithChildren(slots, m, vs);
    CheckedChildrenInRange(slots, vs);
  }

  /** The outcome of reading one edge line into edge `e`, given the number of allocated vertices. */
  function EdgeOutcome(line: string, vertexSize: nat, toFloat: string -> Option<real>, e: nat): Result<nat> {
    var fields := PipeFields(line);
    var slots := Split(fields.0, ' ');
    var feats := Features(Split(fields.1, ' '), toFloat, map[]);
    if SlotsCheck(slots, vertexSize).Some? then Err(SlotsCheck(slots, vertexSize).value)
    else if feats.Err? then Err(feats.error)
    else Ok(e)
  }

  // ---------------------------------------------------------------------
  // The file as ReadGraph consumes it
  // ---------------------------------------------------------------------

  /**
   * How far the reader has got: the next line to read, the incoming
   * edges of each vertex read so far, and for each edge read so far the
   * line it was read from.
   */
  datatype Progress = Progress(pos: nat, incoming: seq<seq<nat>>, edgeLines: seq<nat>)

  /** What a whole file gives: the declared counts and what was read. */
  datatype Parsed = Parsed(vertexCount: nat, edgeCount: nat, progress: Progress)

  /** The error of a failed step, None for a successful one. */
  function ErrorOf<T>(r: Result<T>): (err: Option<Error>)
    ensures err.None? <==> r.Ok?
    ensures r.Err? ==> err.value == r.error
  {
    if r.Err? then Some(r.error) else None
  }

  /** A line that reads as an edge of a vertex, with `vertexSize` vertices allocated. */
  predicate LineFits(line: string, vertexSize: nat, toFloat: string -> Option<real>) {
    EdgeOutcome(line, vertexSize, toFloat, 0).Ok?
  }

  /**
   * One edge line of the last vertex read, with `ne` edges in the pool:
   * the edge is allocated, the next non-comment line is read into it,
   * and it is added to the vertex.
   */
  function EdgeStep(lines: seq<string>, toFloat: string -> Option<real>, ne: nat, p: Progress): (r: Result<Progress>)
    requires p.pos <= |lines| && |p.incoming| > 0
    ensures r.Ok? ==> p.pos < r.value.pos <= |lines| && |r.value.incoming| == |p.incoming|
  {
    if |p.edgeLines| >= ne then Err(AllocatingPastEnd)
    else
      var j := FirstNonComment(lines, p.pos);
      var v := |p.incoming| - 1;
      if j == |lines| then Err(EndOfFile)
      else match EdgeOutcome(lines[j], v + 1, toFloat, |p.edgeLines|)
        case Err(e) => Err(e)
        case Ok(_) => Ok(Progress(j + 1, p.incoming[v := p.incoming[v] + [|p.edgeLines|]], p.edgeLines + [j]))
  }

  /** `count` edge lines of the last vertex read, stopping at the first error. */
  function EdgeLines(lines: seq<string>, toFloat: string -> Option<real>, ne: nat, p: Progress, count: nat): (r: Result<Progress>)
    requires p.pos <= |lines| && |p.incoming| > 0
    ensures r.Ok? ==> p.pos <= r.value.pos <= |lines| && |r.value.incoming| == |p.incoming|
    decreases count
  {
    if count == 0 then Ok(p)
    else match EdgeStep(lines, toFloat, ne, p)
      case Err(e) => Err(e)
      case Ok(q) => EdgeLines(lines, toFloat, ne, q, count - 1)
  }

  /** One vertex: its edge-count line, the new vertex, then its edge lines. */
  function VertexLines(lines: seq<string>, toFloat: string -> Option<real>, ne: nat, p: Progress): (r: Result<Progress>)
    requires p.pos <= |lines|
    ensures r.Ok? ==> r.value.pos <= |lines| && |r.value.incoming| == |p.incoming| + 1
  {
    var j := FirstNonComment(lines, p.pos);
    if j == |lines| then Err(EndOfFile)
    else match ParseULong(lines[j])
      case None => Err(BadNumber)
      case Some(count) => EdgeLines(lines, toFloat, ne, Progress(j + 1, p.incoming + [[]], p.edgeLines), count)
  }

  /** The vertices after those of `p`, up to `nv` of them, stopping at the first error. */
  function VerticesFrom(lines: seq<string>, toFloat: string -> Option<real>, nv: nat, ne: nat, p: Progress): (r: Result<Progress>)
    requires p.pos <= |lines|
    ensures r.Ok? && |p.incoming| <= nv ==> |r.value.incoming| == nv
    decreases nv - |p.incoming|
  {
    if |p.incoming| >= nv then Ok(p)
    else match VertexLines(lines, toFloat, ne, p)
      case Err(e) => Err(e)
      case Ok(q) => VerticesFrom(lines, toFloat, nv, ne, q)
  }

  /**
   * The whole file: the header line, the counts line, then every declared
   * vertex with its edges; the first error ends the parse.
   */
  function ParseGraph(lines: seq<string>, toFloat: string -> Option<real>): (r: Result<Parsed>)
    ensures r.Ok? ==> |r.value.progress.incoming| == r.value.vertexCount
  {
    if |lines| == 0 then Err(EndOfFile)
    else if lines[0] != Header then Err(BadHeader)
    else
      var j := FirstNonComment(lines, 1);
      if j == |lines| then Err(EndOfFile)
      else match Counts(lines[j])
        case None => Err(BadNumber)
        case Some((nv, ne)) =>
          match VerticesFrom(lines, toFloat, nv, ne, Progress(j + 1, [], []))
          case Err(e) => Err(e)
          case Ok(p) => Ok(Parsed(nv, ne, p))
  }

  /** The incoming lists, vertex after vertex. */
  function Flatten(incoming: seq<seq<nat>>): seq<nat> {
    if |incoming| == 0 then [] else Flatten(incoming[..|incoming| - 1]) + incoming[|incoming| - 1]
  }

  /**
   * What the parse promises of the graph: the edges were read from
   * non-comment lines, in increasing line order and before the current
   * position; every edge belongs to exactly one vertex, the edges being
   * numbered in reading order vertex after vertex; and each edge's line
   * reads as an edge of its vertex.
   */
  ghost predicate Consistent(lines: seq<string>, toFloat: string -> Option<real>, p: Progress) {
    && Flatten(p.incoming) == Range(0, |p.edgeLines|)
    && (forall k :: 0 <= k < |p.edgeLines| ==> p.edgeLines[k] < p.pos && p.edgeLines[k] < |lines| && !IsComment(lines[p.edgeLines[k]]))
    && (forall k1, k2 :: 0 <= k1 < k2 < |p.edgeLines| ==> p.edgeLines[k1] < p.edgeLines[k2])
    && forall v, k :: 0 <= v < |p.incoming| && 0 <= k < |p.incoming[v]| ==>
         p.incoming[v][k] < |p.edgeLines| && LineFits(lines[p.edgeLines[p.incoming[v][k]]], v + 1, toFloat)
  }

  /**
   * The graph holds what `p` says was read: the first `nv` vertices of
   * `V` have the incoming lists of `p`, and each of the first `ne` edges
   * of `E` has the content of its line, with the words interned in `m`.
   */
  ghost predicate Holds(lines: seq<string>, toFloat: string -> Option<real>, p: Progress,
                        E: seq<Edge>, V: seq<Vertex>, ne: nat, nv: nat, m: map<string, nat>) {
    && nv == |p.incoming| <= |V| && ne == |p.edgeLines| <= |E|
    && (forall v :: 0 <= v < nv ==> V[v].incoming == p.incoming[v])
    && forall k :: 0 <= k < ne ==> p.edgeLines[k] < |lines| && EdgeFromLine(E[k], lines[p.edgeLines[k]], toFloat, m)
  }

  /** Interning more words keeps an edge's content that of its line. */
  lemma EdgeFromLineStable(edge: Edge, line: string, toFloat: string -> Option<real>, m: map<string, nat>, m': map<string, nat>)
    requires EdgeFromLine(edge, line, toFloat, m) && Extends(m, m')
    ensures EdgeFromLine(edge, line, toFloat, m')
  {
    SlotWordsStable(Split(PipeFields(line).0, ' '), m, m');
  }

  /** The edge read for vertex `v` (as ReadEdge and AddEdge state it) is the parse's next edge step. */
  lemma HoldsEdgeStep(lines: seq<string>, toFloat: string -> Option<real>, ne: nat, p: Progress,
                      E: seq<Edge>, V: seq<Vertex>, m: map<string, nat>,
                      E': seq<Edge>, V': seq<Vertex>, m': map<string, nat>, v: nat)
    requires p.pos <= |lines| && Holds(lines, toFloat, p, E, V, |p.edgeLines|, v + 1, m)
    requires |p.edgeLines| < ne
    requires FirstNonComment(lines, p.pos) < |lines|
    requires EdgeOutcome(lines[FirstNonComment(lines, p.pos)], v + 1, toFloat, |p.edgeLines|).Ok?
    requires |p.edgeLines| < |E'| && E'[..|p.edgeLines|] == E[..|p.edgeLines|] && Extends(m, m')
    requires EdgeFromLine(E'[|p.edgeLines|], lines[FirstNonComment(lines, p.pos)], toFloat, m')
    requires |V'| == |V| && V' == V[v := Vertex(V[v].incoming + [|p.edgeLines|])]
    ensures EdgeStep(lines, toFloat, ne, p).Ok?
    ensures Holds(lines, toFloat, EdgeStep(lines, toFloat, ne, p).value, E', V', |p.edgeLines| + 1, v + 1, m')
  {
    var n := |p.edgeLines|;
    var q := EdgeStep(lines, toFloat, ne, p).value;
    forall k | 0 <= k < n + 1
      ensures q.edgeLines[k] < |lines| && EdgeFromLine(E'[k], lines[q.edgeLines[k]], toFloat, m')
    {
      if k < n {
        assert E'[k] == E'[..n][k] == E[..n][k] == E[k];
        EdgeFromLineStable(E[k], lines[p.edgeLines[k]], toFloat, m, m');
      }
    }
  }

  /** A new vertex with no incoming edges yet extends what was read by one empty list. */
  lemma HoldsNewVertex(lines: seq<string>, toFloat: string -> Option<real>, p: Progress, j: nat,
                       E: seq<Edge>, V: seq<Vertex>, ne: nat, m: map<string, nat>)
    requires Holds(lines, toFloat, p, E, V, ne, |p.incoming|, m)
    requires |p.incoming| < |V| && V[|p.incoming|] == BlankVertex
    ensures Holds(lines, toFloat, Progress(j, p.incoming + [[]], p.edgeLines), E, V, ne, |p.incoming| + 1, m)
  {
  }

  /** One edge line of vertex `v`: the edge read next becomes v's last incoming edge. */
  method ReadIncomingEdge(from: LineReader, graph: Graph, toFloat: string -> Option<real>, v: nat, ghost p: Progress)
    returns (err: Option<Error>)
    requires from.Valid() && graph.Valid() && from.pos == p.pos
    requires v < graph.vertices.Capacity() && graph.VertexSize() == v + 1
    requires Holds(from.lines, toFloat, p, graph.edges.data[..], graph.vertices.data[..], graph.EdgeSize(), v + 1, graph.vocab.index)
    modifies from, graph.edges`current, graph.edges.data, graph.vertices.data, graph.vocab
    ensures from.Valid() && graph.Valid()
    ensures graph.edges.Capacity() == old(graph.edges.Capacity()) && graph.VertexSize() == v + 1
    ensures var r := EdgeStep(from.lines, toFloat, graph.edges.Capacity(), p);
            && err == ErrorOf(r)
            && (r.Ok? ==> from.pos == r.value.pos
                          && Holds(from.lines, toFloat, r.value, graph.edges.data[..], graph.vertices.data[..], graph.EdgeSize(), v + 1, graph.vocab.index))
  {
    ghost var E, V, m := graph.edges.data[..], graph.vertices.data[..], graph.vocab.index;
    var r := ReadEdge(from, graph, toFloat);
    if r.Err? {
      return Some(r.error);
    }
    graph.AddEdge(v, r.value);
    HoldsEdgeStep(from.lines, toFloat, graph.edges.Capacity(), p, E, V, m, graph.edges.data[..], graph.vertices.data[..], graph.vocab.index, v);
    return None;
  }

  /**
   * The edge lines of vertex `v`: `count` edges read one after the other
   * and added to v's incoming list, as EdgeLines says.
   */
  method ReadIncoming(from: LineReader, graph: Graph, toFloat: string -> Option<real>, v: nat, count: nat, ghost p: Progress)
    returns (err: Option<Error>)
    requires from.Valid() && graph.Valid() && from.pos == p.pos
    requires v < graph.vertices.Capacity() && graph.VertexSize() == v + 1
    requires Holds(from.lines, toFloat, p, graph.edges.data[..], graph.vertices.data[..], graph.EdgeSize(), v + 1, graph.vocab.index)
    modifies from, graph.edges`current, graph.edges.data, graph.vertices.data, graph.vocab
    ensures from.Valid() && graph.Valid()
    ensures graph.edges.Capacity() == old(graph.edges.Capacity()) && graph.VertexSize() == v + 1
    ensures var r := EdgeLines(from.lines, toFloat, graph.edges.Capacity(), p, count);
            && err == ErrorOf(r)
            && (r.Ok? ==> from.pos == r.value.pos
                          && Holds(from.lines, toFloat, r.value, graph.edges.data[..], graph.vertices.data[..], graph.EdgeSize(), v + 1, graph.vocab.index))
  {
    ghost var q := p;
    var e := 0;
    while e < count
      invariant 0 <= e <= count
      invariant from.Valid() && graph.Valid()
      invariant graph.edges.Capacity() == old(graph.edges.Capacity()) && graph.VertexSize() == v + 1
      invariant from.pos == q.pos && |q.incoming| == v + 1
      invariant Holds(from.lines, toFloat, q, graph.edges.data[..], graph.vertices.data[..], graph.EdgeSize(), v + 1, graph.vocab.index)
      invariant EdgeLines(from.lines, toFloat, graph.edges.Capacity(), p, count) == EdgeLines(from.lines, toFloat, graph.edges.Capacity(), q, count - e)
    {
      err := ReadIncomingEdge(from, graph, toFloat, v, q);
      if err.Some? {
        return;
      }
      q := EdgeStep(from.lines, toFloat, graph.edges.Capacity(), q).value;
      e := e + 1;
    }
    return None;
  }

  /** The two numbers of the counts line "<vertices> <edges>" (further tokens are ignored). */
  function Counts(line: string): (r: Option<(nat, nat)>)
    ensures r.Some? ==> |Split(line, ' ')| >= 2
  {
    var toks := Split(line, ' ');
    if |toks| < 2 then None
    else match (ParseULong(toks[0]), ParseULong(toks[1]))
      case (Some(nv), Some(ne)) => Some((nv, ne))
      case _ => None
  }

  /**
   * ReadGraph: the header line, the counts line, then for every vertex its
   * edge count and that many edge lines. The outcome is ParseGraph's: its
   * error, or a graph whose pools have the declared capacities, whose
   * vertices have the incoming lists the file gives and whose edges hold
   * the content of their lines. Such a graph is bottom-up, every edge
   * belongs to exactly one vertex, and every edge has at least one slot.
   */
  method ReadGraph(from: LineReader, graph: Graph, toFloat: string -> Option<real>) returns (err: Option<Error>)
    requires from.Valid() && from.pos == 0
    requires graph.Valid() && !graph.edges.initialised && graph.EdgeSize() == 0 && graph.VertexSize() == 0
    modifies from, graph.edges, graph.vertices, graph.vocab
    ensures from.Valid() && graph.Valid()
    ensures var r := ParseGraph(from.lines, toFloat);
            && err == ErrorOf(r)
            && (r.Ok? ==>
                  && graph.VertexSize() == graph.vertices.Capacity() == r.value.vertexCount
                  && graph.edges.Capacity() == r.value.edgeCount
                  && from.pos == r.value.progress.pos
                  && Holds(from.lines, toFloat, r.value.progress, graph.edges.data[..], graph.vertices.data[..],
                           graph.EdgeSize(), graph.VertexSize(), graph.vocab.index))
    ensures err.None? ==>
              && graph.EdgeSize() <= graph.edges.Capacity()
              && BottomUp(graph.edges.data[..], graph.vertices.data[..], graph.VertexSize(), graph.EdgeSize())
              && AllIncoming(graph.vertices.data[..]) == Range(0, graph.EdgeSize())
              && forall k :: 0 <= k < graph.EdgeSize() ==> |graph.edges.data[k].words| > 0
  {
    var header := from.ReadLine();
    if header.Err? {
      assert ParseGraph(from.lines, toFloat) == Err(EndOfFile);
      return Some(header.error);
    }
    if header.value != Header {
      assert ParseGraph(from.lines, toFloat) == Err(BadHeader);
      return Some(BadHeader);
    }
    err := ReadCounted(from, graph, toFloat);
    if err.None? {
      ParsedWellFormed(from.lines, toFloat, graph.edges.data[..], graph.vertices.data[..], graph.EdgeSize(), graph.vocab.index);
    }
  }

  /** ReadGraph after a good header: the counts line, SetCounts, then the vertex loop. */
  method ReadCounted(from: LineReader, graph: Graph, toFloat: string -> Option<real>) returns (err: Option<Error>)
    requires from.Valid() && from.pos == 1 && from.lines[0] == Header
    requires graph.Valid() && !graph.edges.initialised && graph.EdgeSize() == 0 && graph.VertexSize() == 0
    modifies from, graph.edges, graph.vertices, graph.vocab
    ensures from.Valid() && graph.Valid()
    ensures var r := ParseGraph(from.lines, toFloat);
            && err == ErrorOf(r)
            && (r.Ok? ==>
                  && graph.VertexSize() == graph.vertices.Capacity() == r.value.vertexCount
                  && graph.edges.Capacity() == r.value.edgeCount
                  && from.pos == r.value.progress.pos
                  && Holds(from.lines, toFloat, r.value.progress, graph.edges.data[..], graph.vertices.data[..],
                           graph.EdgeSize(), graph.VertexSize(), graph.vocab.index))
  {
    var line := NextLine(from);
    if line.Err? {
      assert ParseGraph(from.lines, toFloat) == Err(EndOfFile);
      return Some(line.error);
    }
    var counts := Counts(line.value);
    if counts.None? {
      assert ParseGraph(from.lines, toFloat) == Err(BadNumber);
      return Some(BadNumber);
    }
    var (vertices, edges) := counts.value;
    graph.SetCounts(vertices, edges);
    ParseGraphBody(from.lines, toFloat, from.pos - 1);
    err := ReadVertices(from, graph, toFloat);
  }

  /** The vertex loop of ReadGraph: every declared vertex, as VerticesFrom says. */
  method ReadVertices(from: LineReader, graph: Graph, toFloat: string -> Option<real>) returns (err: Option<Error>)
    requires from.Valid() && graph.Valid() && graph.VertexSize() == 0 && graph.EdgeSize() == 0
    modifies from, graph.edges`current, graph.edges.data, graph.vertices`current, graph.vertices.data, graph.vocab
    ensures from.Valid() && graph.Valid()
    ensures graph.vertices.Capacity() == old(graph.vertices.Capacity()) && graph.edges.Capacity() == old(graph.edges.Capacity())
    ensures var r := VerticesFrom(from.lines, toFloat, graph.vertices.Capacity(), graph.edges.Capacity(), Progress(old(from.pos), [], []));
            && err == ErrorOf(r)
            && (r.Ok? ==> graph.VertexSize() == graph.vertices.Capacity() && from.pos == r.value.pos
                          && Holds(from.lines, toFloat, r.value, graph.edges.data[..], graph.vertices.data[..], graph.EdgeSize(), graph.VertexSize(), graph.vocab.index))
  {
    var vertices := graph.vertices.Capacity();
    ghost var p0 := Progress(from.pos, [], []);
    ghost var q := p0;
    var i := 0;
    while i < vertices
      invariant 0 <= i <= vertices
      invariant from.Valid() && graph.Valid()
      invariant graph.vertices.Capacity() == vertices && graph.edges.Capacity() == old(graph.edges.Capacity())
      invariant graph.VertexSize() == i && from.pos == q.pos
      invariant Holds(from.lines, toFloat, q, graph.edges.data[..], graph.vertices.data[..], graph.EdgeSize(), i, graph.vocab.index)
      invariant VerticesFrom(from.lines, toFloat, vertices, graph.edges.Capacity(), p0) == VerticesFrom(from.lines, toFloat, vertices, graph.edges.Capacity(), q)
    {
      err := ReadVertex(from, graph, toFloat, i, q);
      if err.Some? {
        return;
      }
      q := VertexLines(from.lines, toFloat, graph.edges.Capacity(), q).value;
      i := i + 1;
    }
    return None;
  }

  /** One vertex of ReadGraph: its edge-count line, a new vertex and its edge lines, as VertexLines says. */
  method ReadVertex(from: LineReader, graph: Graph, toFloat: string -> Option<real>, i: nat, ghost p: Progress)
    returns (err: Option<Error>)
    requires from.Valid() && graph.Valid() && from.pos == p.pos
    requires i < graph.vertices.Capacity() && graph.VertexSize() == i
    requires Holds(from.lines, toFloat, p, graph.edges.data[..], graph.vertices.data[..], graph.EdgeSize(), i, graph.vocab.index)
    modifies from, graph.edges`current, graph.edges.data, graph.vertices`current, graph.vertices.data, graph.vocab
    ensures from.Valid() && graph.Valid()
    ensures graph.vertices.Capacity() == old(graph.vertices.Capacity()) && graph.edges.Capacity() == old(graph.edges.Capacity())
    ensures var r := VertexLines(from.lines, toFloat, graph.edges.Capacity(), p);
            && err == ErrorOf(r)
            && (r.Ok? ==> graph.VertexSize() == i + 1 && from.pos == r.value.pos
                          && Holds(from.lines, toFloat, r.value, graph.edges.data[..], graph.vertices.data[..], graph.EdgeSize(), i + 1, graph.vocab.index))
  {
    ghost var j := FirstNonComment(from.lines, from.pos);
    var line := NextLine(from);
    if line.Err? {
      return Some(line.error);
    }
    var edgeCount := ParseULong(line.value);
    if edgeCount.None? {
      return Some(BadNumber);
    }
    var vertex := graph.NewVertex();
    assert vertex == Ok(i) && graph.GetVertex(i) == BlankVertex;
    ghost var p1 := Progress(j + 1, p.incoming + [[]], p.edgeLines);
    HoldsNewVertex(from.lines, toFloat, p, j + 1, graph.edges.data[..], graph.vertices.data[..], graph.EdgeSize(), graph.vocab.index);
    err := ReadIncoming(from, graph, toFloat, i, edgeCount.value, p1);
  }

  // ---------------------------------------------------------------------
  // What a successful parse promises
  // ---------------------------------------------------------------------

  /** Reading one more edge line keeps the parse consistent. */
  lemma EdgeStepConsistent(lines: seq<string>, toFloat: string -> Option<real>, ne: nat, p: Progress)
    requires p.pos <= |lines| && |p.incoming| > 0 && Consistent(lines, toFloat, p)
    requires EdgeStep(lines, toFloat, ne, p).Ok?
    ensures Consistent(lines, toFloat, EdgeStep(lines, toFloat, ne, p).value)
  {
    var q := EdgeStep(lines, toFloat, ne, p).value;
    var n, last := |p.edgeLines|, |p.incoming| - 1;
    assert q.incoming[..last] == p.incoming[..last];
    assert Flatten(q.incoming) == Flatten(p.incoming) + [n];
    forall v, k | 0 <= v < |q.incoming| && 0 <= k < |q.incoming[v]|
      ensures q.incoming[v][k] < |q.edgeLines| && LineFits(lines[q.edgeLines[q.incoming[v][k]]], v + 1, toFloat)
    {
      if v < last || k < |p.incoming[v]| {
        assert q.incoming[v][k] == p.incoming[v][k];
      }
    }
  }

  lemma {:induction false} EdgeLinesConsistent(lines: seq<string>, toFloat: string -> Option<real>, ne: nat, p: Progress, count: nat)
    requires p.pos <= |lines| && |p.incoming| > 0 && Consistent(lines, toFloat, p)
    requires EdgeLines(lines, toFloat, ne, p, count).Ok?
    ensures Consistent(lines, toFloat, EdgeLines(lines, toFloat, ne, p, count).value)
    decreases count
  {
    if count > 0 {
      EdgeStepConsistent(lines, toFloat, ne, p);
      EdgeLinesConsistent(lines, toFloat, ne, EdgeStep(lines, toFloat, ne, p).value, count - 1);
    }
  }

  lemma VertexLinesConsistent(lines: seq<string>, toFloat: string -> Option<real>, ne: nat, p: Progress)
    requires p.pos <= |lines| && Consistent(lines, toFloat, p)
    requires VertexLines(lines, toFloat, ne, p).Ok?
    ensures Consistent(lines, toFloat, VertexLines(lines, toFloat, ne, p).value)
  {
    var j := FirstNonComment(lines, p.pos);
    var count := ParseULong(lines[j]).value;
    var p1 := Progress(j + 1, p.incoming + [[]], p.edgeLines);
    assert p1.incoming[..|p.incoming|] == p.incoming;
    assert Consistent(lines, toFloat, p1);
    EdgeLinesConsistent(lines, toFloat, ne, p1, count);
  }

  lemma {:induction false} VerticesFromConsistent(lines: seq<string>, toFloat: string -> Option<real>, nv: nat, ne: nat, p: Progress)
    requires p.pos <= |lines| && Consistent(lines, toFloat, p)
    requires VerticesFrom(lines, toFloat, nv, ne, p).Ok?
    ensures Consistent(lines, toFloat, VerticesFrom(lines, toFloat, nv, ne, p).value)
    decreases nv - |p.incoming|
  {
    if |p.incoming| < nv {
      VertexLinesConsistent(lines, toFloat, ne, p);
      VerticesFromConsistent(lines, toFloat, nv, ne, VertexLines(lines, toFloat, ne, p).value);
    }
  }

  /** After a good header and counts line at `j`, the parse is the vertex loop's. */
  lemma ParseGraphBody(lines: seq<string>, toFloat: string -> Option<real>, j: nat)
    requires |lines| > 0 && lines[0] == Header && j == FirstNonComment(lines, 1) < |lines|
    requires Counts(lines[j]).Some?
    ensures var (nv, ne) := Counts(lines[j]).value;
            var r := VerticesFrom(lines, toFloat, nv, ne, Progress(j + 1, [], []));
            && ErrorOf(ParseGraph(lines, toFloat)) == ErrorOf(r)
            && (r.Ok? ==> ParseGraph(lines, toFloat) == Ok(Parsed(nv, ne, r.value)))
  {
  }

  /**
   * A file that parses gives consistent progress: the edges numbered
   * 0, 1, ... vertex after vertex, each read from a line that fits its vertex.
   */
  lemma ParseGraphConsistent(lines: seq<string>, toFloat: string -> Option<real>)
    requires ParseGraph(lines, toFloat).Ok?
    ensures Consistent(lines, toFloat, ParseGraph(lines, toFloat).value.progress)
  {
    var j := FirstNonComment(lines, 1);
    var (nv, ne) := Counts(lines[j]).value;
    var p0 := Progress(j + 1, [], []);
    assert Consistent(lines, toFloat, p0);
    ParseGraphBody(lines, toFloat, j);
    VerticesFromConsistent(lines, toFloat, nv, ne, p0);
  }

  /** A graph that holds a whole file's parse is well formed, as HoldsWellFormed states. */
  lemma ParsedWellFormed(lines: seq<string>, toFloat: string -> Option<real>, E: seq<Edge>, V: seq<Vertex>, ne: nat, m: map<string, nat>)
    requires ParseGraph(lines, toFloat).Ok?
    requires Holds(lines, toFloat, ParseGraph(lines, toFloat).value.progress, E, V, ne, |V|, m)
    ensures BottomUp(E, V, |V|, ne) && AllIncoming(V) == Range(0, ne)
    ensures forall k :: 0 <= k < ne ==> |E[k].words| > 0
  {
    ParseGraphConsistent(lines, toFloat);
    HoldsWellFormed(lines, toFloat, ParseGraph(lines, toFloat).value.progress, E, V, m);
  }

  /** The vertices' incoming lists, read off `V`, are the flattened lists of the parse. */
  lemma {:induction false} AllIncomingFlatten(V: seq<Vertex>, incoming: seq<seq<nat>>)
    requires |V| == |incoming| && forall v :: 0 <= v < |V| ==> V[v].incoming == incoming[v]
    ensures AllIncoming(V) == Flatten(incoming)
  {
    if |V| > 0 {
      AllIncomingFlatten(V[..|V| - 1], incoming[..|incoming| - 1]);
    }
  }

  /**
   * A graph that holds a consistent parse with all its vertices is
   * bottom-up (gaps aligned with children, children allocated no later
   * than their head), its edges are 0, 1, ..., ne-1 vertex after vertex,
   * and every edge has at least one slot.
   */
  lemma HoldsWellFormed(lines: seq<string>, toFloat: string -> Option<real>, p: Progress, E: seq<Edge>, V: seq<Vertex>, m: map<string, nat>)
    requires Consistent(lines, toFloat, p)
    requires Holds(lines, toFloat, p, E, V, |p.edgeLines|, |V|, m)
    ensures BottomUp(E, V, |V|, |p.edgeLines|)
    ensures AllIncoming(V) == Range(0, |p.edgeLines|)
    ensures forall k :: 0 <= k < |p.edgeLines| ==> |E[k].words| > 0
  {
    AllIncomingFlatten(V, p.incoming);
    forall v, k | 0 <= v < |V| && 0 <= k < |V[v].incoming|
      ensures EdgeFits(E, V[v].incoming[k], |p.edgeLines|, v)
    {
      var e := p.incoming[v][k];
      FittingLineEdge(E[e], lines[p.edgeLines[e]], toFloat, m, v);
    }
    forall k | 0 <= k < |p.edgeLines|
      ensures |E[k].words| > 0
    {
      assert EdgeFromLine(E[k], lines[p.edgeLines[k]], toFloat, m);
    }
  }

  /** An edge read from a line that fits vertex `v` is aligned, points no higher than `v`, and has a slot. */
  lemma FittingLineEdge(edge: Edge, line: string, toFloat: string -> Option<real>, m: map<string, nat>, v: nat)
    requires EdgeFromLine(edge, line, toFloat, m) && LineFits(line, v + 1, toFloat)
    ensures Aligned(edge) && ChildrenUpTo(edge, v) && |edge.words| > 0
  {
    var slots := Split(PipeFields(line).0, ' ');
    GapsAlignWithChildren(slots, m, v + 1);
    CheckedChildrenInRange(slots, v + 1);
  }

  /**
   * The range check compares a gap with VertexSize(), which already counts
   * the vertex whose edges are being read: the first vertex's edge
   * "[0] b" passes, with the head itself as its child.
   */
  lemma SelfReferenceAccepted()
    ensures SlotsCheck(Split("[0] b", ' '), 1).None?
    ensures GapChildren(Split("[0] b", ' ')) == [0]
  {
    var line := "[0] b";
    assert line[0] != ' ' && line[1] != ' ' && line[2] != ' ' && line[3] == ' ';
    assert IndexOf(line, ' ') == 3 by {
      assert line[1..][1..][1..] == line[3..];
    }
    assert line[..3] == "[0]" && line[4..] == "b";
    assert ' ' !in "b";
    assert Split(line, ' ') == ["[0]", "b"];
    assert ClassifySlot("[0]") == NonTerminal(0) by {
      assert "[0]"[1..2] == "0";
      assert DigitsValue("0") == 0;
    }
    assert ["[0]", "b"][..1] == ["[0]"];
  }
}
