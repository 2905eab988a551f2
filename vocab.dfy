/**
 * Token interning (Vocab in mert/Hypergraph.h). Every distinct token text
 * gets a dense index, in order of first occurrence; an entry is the pair
 * (text, index), and the rest of the core refers to words by entry.
 */
module Vocabulary {

  /** Vocab::Entry: the interned text and its index. */
  datatype Entry = Entry(text: string, index: nat)

  /** The indices of `tokens` under the interning map `m`. */
  function Indices(tokens: seq<string>, m: map<string, nat>): (r: seq<nat>)
    requires forall i :: 0 <= i < |tokens| ==> tokens[i] in m
    ensures |r| == |tokens|
    ensures forall i :: 0 <= i < |tokens| ==> r[i] == m[tokens[i]]
  {
    if |tokens| == 0 then [] else Indices(tokens[..|tokens| - 1], m) + [m[tokens[|tokens| - 1]]]
  }

  /** `m'` keeps every entry of `m`: interning only adds tokens. */
  predicate Extends(m: map<string, nat>, m': map<string, nat>) {
    forall t :: t in m ==> t in m' && m'[t] == m[t]
  }

  lemma ExtendsTrans(m: map<string, nat>, m': map<string, nat>, m'': map<string, nat>)
    requires Extends(m, m') && Extends(m', m'')
    ensures Extends(m, m'')
  {
  }

  /** Growing the map does not change the indices of tokens already in it. */
  lemma IndicesStable(tokens: seq<string>, m: map<string, nat>, m': map<string, nat>)
    requires forall i :: 0 <= i < |tokens| ==> tokens[i] in m
    requires Extends(m, m')
    ensures Indices(tokens, m') == Indices(tokens, m)
  {
  }

  class Vocab {
    /** map_: token text to index. */
    var index: map<string, nat>
    /** piece_backing_: the interned texts, in the order they were added. */
    var pieces: seq<string>

    /** Indices are dense, 0..n-1, and index i belongs to pieces[i]. */
    ghost predicate Valid()
      reads this
    {
      && |index| == |pieces|
      && (forall s :: s in index ==> index[s] < |pieces| && pieces[index[s]] == s)
      && (forall i :: 0 <= i < |pieces| ==> pieces[i] in index && index[pieces[i]] == i)
    }

    /** `e` is the entry this vocabulary handed out for its text. */
    predicate Interned(e: Entry)
      reads this
    {
      e.text in index && index[e.text] == e.index
    }

    constructor ()
      ensures Valid() && index == map[] && pieces == []
    {
      index := map[];
      pieces := [];
    }

    /**
     * FindOrAdd: the existing entry of a known token, and otherwise a new
     * entry whose index is the number of entries before the insertion.
     */
    method FindOrAdd(str: string) returns (e: Entry)
      requires Valid()
      modifies this
      ensures Valid()
      ensures e.text == str && Interned(e)
      ensures str in old(index) ==> e.index == old(index)[str] && index == old(index) && pieces == old(pieces)
      ensures str !in old(index) ==>
                && e.index == old(|index|)
                && index == old(index)[str := old(|index|)]
                && pieces == old(pieces) + [str]
    {
      if str in index {
        return Entry(str, index[str]);
      }
      var n := |index|;
      pieces := pieces + [str];
      index := index[str := n];
      e := Entry(str, n);
    }

    /** Under a valid vocabulary two handed-out entries have equal indices exactly when their texts are equal. */
    lemma IndexIdentifiesText(e1: Entry, e2: Entry)
      requires Valid() && Interned(e1) && Interned(e2)
      ensures e1.index == e2.index <==> e1.text == e2.text
    {
    }
  }
}
