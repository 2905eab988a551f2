/**
 * The arena hypergraph of mert/Hypergraph.h: fixed-capacity bump
 * allocators for edges and vertices, edges with an ordered slot list in
 * which None marks a gap (a non-terminal), aligned with the edge's child
 * list, and vertices with their incoming edges. Edges and vertices are
 * referred to by their index in the pool.
 */
module Hypergraph {
  import opened Wrappers
  import opened Vocabulary

  /**
   * FixedAllocator<T>: a pool of `Capacity()` slots and a bump pointer
   * `current`. `initialised` is `current_ != NULL`; `blank` is the value
   * T's default constructor gives every slot of `new T[count]`.
   */
  class FixedAllocator<T> {
    const blank: T
    var data: array<T>
    var current: nat
    var initialised: bool

    /** Slots not yet handed out still hold the default value. */
    ghost predicate Valid()
      reads this, data
    {
      && (!initialised ==> data.Length == 0)
      && forall i :: current <= i < data.Length ==> data[i] == blank
    }

    /** The pool before Init: no storage, nothing allocated. */
    constructor (blank: T)
      ensures Valid() && !initialised && current == 0 && data.Length == 0 && fresh(data)
      ensures this.blank == blank
    {
      this.blank := blank;
      data := new T[0];
      current := 0;
      initialised := false;
    }

    function Capacity(): nat
      reads this
    {
      data.Length
    }

    function Size(): nat
      reads this
    {
      current
    }

    /** Init(count): storage for `count` values, none allocated; only once. */
    method Init(count: nat)
      requires Valid() && !initialised && current == 0
      modifies this
      ensures Valid() && initialised && fresh(data)
      ensures Capacity() == count && Size() == 0
    {
      var b := blank;
      data := new T[count](_ => b);
      current := 0;
      initialised := true;
    }

    /**
     * New(): the slot at index Size(). The pointer is bumped before the
     * capacity check, so a failed call still grows Size() by one.
     */
    method New() returns (r: Result<nat>)
      requires Valid()
      modifies this`current
      ensures Valid()
      ensures current == old(current) + 1
      ensures r == if old(current) < Capacity() then Ok(old(current)) else Err(AllocatingPastEnd)
      ensures r.Ok? ==> Size() <= Capacity()
    {
      var ret := current;
      current := current + 1;
      if ret >= data.Length {
        return Err(AllocatingPastEnd);
      }
      return Ok(ret);
    }

    /** operator[]: unchecked, so the index must lie inside the pool. */
    function Get(idx: nat): T
      requires idx < Capacity()
      reads this, data
    {
      data[idx]
    }

    /**
     * Writing through a slot handed out by New(): replaces that slot,
     * nothing else.
     */
    method Put(idx: nat, v: T)
      requires Valid() && idx < Capacity() && idx < Size()
      modifies data
      ensures Valid()
      ensures data[..] == old(data[..])[idx := v]
    {
      data[idx] := v;
    }
  }

  /**
   * Edge: `words` holds one entry per slot, None for a non-terminal;
   * the i-th None stands for `children[i]` (a vertex index).
   */
  datatype Edge = Edge(words: seq<Option<Entry>>, children: seq<nat>, features: map<string, real>)

  /** Vertex: the indices of its incoming edges, in the order they were added. */
  datatype Vertex = Vertex(incoming: seq<nat>)

  /** Number of gap (None) slots. */
  function NullCount(words: seq<Option<Entry>>): (n: nat)
    ensures n <= |words|
  {
    if |words| == 0 then 0
    else NullCount(words[..|words| - 1]) + (if words[|words| - 1].None? then 1 else 0)
  }

  lemma {:induction false} NullCountAppend(a: seq<Option<Entry>>, b: seq<Option<Entry>>)
    ensures NullCount(a + b) == NullCount(a) + NullCount(b)
    decreases |b|
  {
    if |b| == 0 {
      assert a + b == a;
    } else {
      assert (a + b)[..|a + b| - 1] == a + b[..|b| - 1];
      NullCountAppend(a, b[..|b| - 1]);
    }
  }

  /** Gaps align with children: one child per None slot. */
  predicate Aligned(e: Edge) {
    NullCount(e.words) == |e.children|
  }

  /** Every child of `e` was allocated no later than vertex `v` (bottom-up order). */
  predicate ChildrenUpTo(e: Edge, v: nat) {
    forall c :: 0 <= c < |e.children| ==> e.children[c] <= v
  }

  /** Edge number `e` of the pool exists and, as an incoming edge of vertex `v`, is well formed. */
  predicate EdgeFits(E: seq<Edge>, e: nat, ne: nat, v: nat) {
    e < ne && e < |E| && Aligned(E[e]) && ChildrenUpTo(E[e], v)
  }

  /**
   * The first `nv` vertices of the pool `V` only have incoming edges among
   * the first `ne` edges of `E`, each aligned and with children at most
   * its head.
   */
  ghost predicate BottomUp(E: seq<Edge>, V: seq<Vertex>, nv: nat, ne: nat)
    requires nv <= |V|
  {
    forall v, k :: 0 <= v < nv && 0 <= k < |V[v].incoming| ==> EdgeFits(E, V[v].incoming[k], ne, v)
  }

  /** The edges below `ne` are edges of the pool, so BottomUp holds for the whole pool. */
  lemma BottomUpAllEdges(E: seq<Edge>, V: seq<Vertex>, ne: nat)
    requires BottomUp(E, V, |V|, ne)
    ensures BottomUp(E, V, |V|, |E|)
  {
    forall v, k | 0 <= v < |V| && 0 <= k < |V[v].incoming|
      ensures EdgeFits(E, V[v].incoming[k], |E|, v)
    {
      assert EdgeFits(E, V[v].incoming[k], ne, v);
    }
  }

  /** The consecutive indices lo, lo+1, ..., hi-1. */
  function Range(lo: nat, hi: nat): (r: seq<nat>)
    requires lo <= hi
    ensures |r| == hi - lo && forall k :: 0 <= k < |r| ==> r[k] == lo + k
    decreases hi - lo
  {
    if lo == hi then [] else Range(lo, hi - 1) + [hi - 1]
  }

  /** The incoming edges of all vertices of `V`, vertex after vertex. */
  function AllIncoming(V: seq<Vertex>): seq<nat> {
    if |V| == 0 then [] else AllIncoming(V[..|V| - 1]) + V[|V| - 1].incoming
  }

  /** Growing the edge pool and leaving the old edges and vertices alone keeps BottomUp. */
  lemma BottomUpStable(E: seq<Edge>, V: seq<Vertex>, E': seq<Edge>, V': seq<Vertex>, nv: nat, ne: nat, ne': nat)
    requires nv <= |V| && nv <= |V'| && ne <= |E| && ne <= |E'| && ne <= ne'
    requires V[..nv] == V'[..nv] && E[..ne] == E'[..ne]
    requires BottomUp(E, V, nv, ne)
    ensures BottomUp(E', V', nv, ne')
  {
    forall v, k | 0 <= v < nv && 0 <= k < |V'[v].incoming|
      ensures EdgeFits(E', V'[v].incoming[k], ne', v)
    {
      assert V'[v] == V'[..nv][v] == V[..nv][v] == V[v];
      var e := V[v].incoming[k];
      assert EdgeFits(E, e, ne, v);
      assert E'[e] == E'[..ne][e] == E[..ne][e] == E[e];
    }
  }

  /** Two writes to the same slot leave the second value. */
  lemma UpdateTwice<T>(s: seq<T>, i: nat, x: T, y: T)
    requires i < |s|
    ensures s[i := x][i := y] == s[i := y]
  {
  }

  const BlankEdge := Edge([], [], map[])
  const BlankVertex := Vertex([])

  class Graph {
    const edges: FixedAllocator<Edge>
    const vertices: FixedAllocator<Vertex>
    const vocab: Vocab

    ghost predicate Valid()
      reads edges, vertices, vocab, edges.data, vertices.data
    {
      && edges.Valid() && vertices.Valid() && vocab.Valid()
      && edges.initialised == vertices.initialised
      && edges.blank == BlankEdge && vertices.blank == BlankVertex
    }

    constructor ()
      ensures Valid() && fresh(edges) && fresh(vertices) && fresh(vocab) && fresh(edges.data) && fresh(vertices.data)
      ensures !edges.initialised && edges.Size() == 0 && vertices.Size() == 0
      ensures vocab.index == map[]
    {
      edges := new FixedAllocator<Edge>(BlankEdge);
      vertices := new FixedAllocator<Vertex>(BlankVertex);
      vocab := new Vocab();
    }

    /** SetCounts: both pools get their capacities; VertexSize() is still 0. */
    method SetCounts(nVertices: nat, nEdges: nat)
      requires Valid() && !edges.initialised && edges.Size() == 0 && vertices.Size() == 0
      modifies edges, vertices
      ensures Valid() && fresh(edges.data) && fresh(vertices.data)
      ensures vertices.Capacity() == nVertices && edges.Capacity() == nEdges
      ensures VertexSize() == 0 && EdgeSize() == 0 && edges.initialised
      ensures vocab.index == old(vocab.index) && vocab.pieces == old(vocab.pieces)
    {
      vertices.Init(nVertices);
      edges.Init(nEdges);
    }

    /** VertexSize(): vertices allocated so far (not the capacity). */
    function VertexSize(): nat
      reads this, vertices
    {
      vertices.Size()
    }

    function EdgeSize(): nat
      reads this, edges
    {
      edges.Size()
    }

    method NewEdge() returns (r: Result<nat>)
      requires Valid()
      modifies edges`current
      ensures Valid()
      ensures edges.Size() == old(edges.Size()) + 1
      ensures r == if old(edges.Size()) < edges.Capacity() then Ok(old(edges.Size())) else Err(AllocatingPastEnd)
    {
      r := edges.New();
    }

    method NewVertex() returns (r: Result<nat>)
      requires Valid()
      modifies vertices`current
      ensures Valid()
      ensures vertices.Size() == old(vertices.Size()) + 1
      ensures r == if old(vertices.Size()) < vertices.Capacity() then Ok(old(vertices.Size())) else Err(AllocatingPastEnd)
    {
      r := vertices.New();
    }

    /** GetVertex: unchecked lookup, the index must be inside the pool. */
    function GetVertex(i: nat): Vertex
      requires i < vertices.Capacity()
      reads this, vertices, vertices.data
    {
      vertices.Get(i)
    }

    /** GetEdge: unchecked lookup, the index must be inside the pool. */
    function GetEdge(i: nat): Edge
      requires i < edges.Capacity()
      reads this, edges, edges.data
    {
      edges.Get(i)
    }

    /** Edge::AddWord on edge `e`: appends one slot, nothing else changes. */
    method AddWord(e: nat, word: Option<Entry>)
      requires Valid() && e < edges.Capacity() && e < edges.Size()
      modifies edges.data
      ensures Valid()
      ensures edges.data[..] == old(edges.data[..])[e := old(GetEdge(e)).(words := old(GetEdge(e)).words + [word])]
    {
      var x := edges.Get(e);
      edges.Put(e, x.(words := x.words + [word]));
    }

    /** Edge::AddChild on edge `e`: appends one child, nothing else changes. */
    method AddChild(e: nat, child: nat)
      requires Valid() && e < edges.Capacity() && e < edges.Size()
      modifies edges.data
      ensures Valid()
      ensures edges.data[..] == old(edges.data[..])[e := old(GetEdge(e)).(children := old(GetEdge(e)).children + [child])]
    {
      var x := edges.Get(e);
      edges.Put(e, x.(children := x.children + [child]));
    }

    /** Edge::AddFeature on edge `e`: sets one feature (SparseVector::set). */
    method AddFeature(e: nat, name: string, value: real)
      requires Valid() && e < edges.Capacity() && e < edges.Size()
      modifies edges.data
      ensures Valid()
      ensures edges.data[..] == old(edges.data[..])[e := old(GetEdge(e)).(features := old(GetEdge(e)).features[name := value])]
    {
      var x := edges.Get(e);
      edges.Put(e, x.(features := x.features[name := value]));
    }

    /** Vertex::AddEdge on vertex `v`: appends one incoming edge, nothing else changes. */
    method AddEdge(v: nat, edge: nat)
      requires Valid() && v < vertices.Capacity() && v < vertices.Size()
      modifies vertices.data
      ensures Valid()
      ensures vertices.data[..] == old(vertices.data[..])[v := Vertex(old(GetVertex(v)).incoming + [edge])]
    {
      var x := vertices.Get(v);
      vertices.Put(v, Vertex(x.incoming + [edge]));
    }
  }
}
