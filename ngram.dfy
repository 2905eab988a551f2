/**
 * N-gram identity and counting (ReferenceSet::NgramEquals / NgramHash in
 * mert/ForestRescore.h, and the window of open n-grams that
 * ReferenceSet::Load and HgBleuScorer::Score slide over a token stream).
 * An n-gram is a sequence of vocabulary entries; its key is the sequence
 * of their indices, which is all that equality and hashing look at.
 */
module Ngram {
  import opened Vocabulary

  /** kNgramOrder: BLEU counts n-grams of order 1..4. */
  const Order: nat := 4

  /** The identity of an n-gram: the vocabulary indices of its words. */
  type Key = seq<nat>

  function KeyOf(ngram: seq<Entry>): (k: Key)
    ensures |k| == |ngram| && forall i :: 0 <= i < |ngram| ==> k[i] == ngram[i].index
  {
    seq(|ngram|, i requires 0 <= i < |ngram| => ngram[i].index)
  }

  /** The position-by-position comparison of NgramEquals, from position i on. */
  function EqualFrom(first: seq<Entry>, second: seq<Entry>, i: nat): bool
    requires |first| == |second| && i <= |first|
    decreases |first| - i
  {
    i == |first| || (first[i].index == second[i].index && EqualFrom(first, second, i + 1))
  }

  /** NgramEquals: same length, then equal indices at every position. */
  function NgramEquals(first: seq<Entry>, second: seq<Entry>): (r: bool)
    ensures |first| != |second| ==> !r
  {
    |first| == |second| && EqualFrom(first, second, 0)
  }

  lemma {:induction false} EqualFromMeansIndicesAgree(first: seq<Entry>, second: seq<Entry>, i: nat)
    requires |first| == |second| && i <= |first|
    ensures EqualFrom(first, second, i) <==> forall j :: i <= j < |first| ==> first[j].index == second[j].index
    decreases |first| - i
  {
    if i < |first| {
      EqualFromMeansIndicesAgree(first, second, i + 1);
    }
  }

  /**
   * Two n-grams are NgramEquals exactly when their keys are equal: the
   * comparison looks at indices only, never at texts or entry identity.
   */
  lemma NgramEqualsIsKeyEquality(first: seq<Entry>, second: seq<Entry>)
    ensures NgramEquals(first, second) <==> KeyOf(first) == KeyOf(second)
  {
    if |first| == |second| {
      EqualFromMeansIndicesAgree(first, second, 0);
      if KeyOf(first) == KeyOf(second) {
        assert forall j :: 0 <= j < |first| ==> KeyOf(first)[j] == KeyOf(second)[j];
      }
    } else {
      assert |KeyOf(first)| != |KeyOf(second)|;
    }
  }

  /**
   * NgramHash: a fold over the words' indices, seed 0, with the mixing
   * step (MurmurHashNative of one index into the seed) as a parameter.
   */
  function NgramHash(ngram: seq<Entry>, mix: (nat, nat) -> nat): nat {
    if |ngram| == 0 then 0
    else mix(ngram[|ngram| - 1].index, NgramHash(ngram[..|ngram| - 1], mix))
  }

  /** The hash depends on the key only. */
  lemma {:induction false} HashDependsOnKey(first: seq<Entry>, second: seq<Entry>, mix: (nat, nat) -> nat)
    requires KeyOf(first) == KeyOf(second)
    ensures NgramHash(first, mix) == NgramHash(second, mix)
  {
    if |first| > 0 {
      var n := |first|;
      assert KeyOf(first[..n - 1]) == KeyOf(first)[..n - 1];
      assert KeyOf(second[..n - 1]) == KeyOf(second)[..n - 1];
      assert first[n - 1].index == KeyOf(first)[n - 1] == KeyOf(second)[n - 1] == second[n - 1].index;
      HashDependsOnKey(first[..n - 1], second[..n - 1], mix);
    }
  }

  /** Equal n-grams hash equally, whatever the mixing step: hash and equality agree. */
  lemma EqualNgramsHashEqually(first: seq<Entry>, second: seq<Entry>, mix: (nat, nat) -> nat)
    requires NgramEquals(first, second)
    ensures NgramHash(first, mix) == NgramHash(second, mix)
  {
    NgramEqualsIsKeyEquality(first, second);
    HashDependsOnKey(first, second, mix);
  }

  /**
   * Where a word sits relative to the edge being scored: a word of the
   * edge itself, the word at `pos` of a child's left context, or a word of
   * a child's right context.
   */
  datatype Mode = Literal | InLeft(pos: nat) | InRight

  /**
   * The insertion rule of Score: every n-gram ending at a literal word,
   * none ending in a right context, and in a left context only those
   * longer than pos + 1, which reach back past the child's first word.
   */
  predicate Countable(mode: Mode, n: nat) {
    match mode
    case Literal => true
    case InLeft(p) => n > p + 1
    case InRight => false
  }

  /**
   * The list of open n-grams, newest (the 1-gram) first, and the
   * NgramCounter multiset of the n-grams inserted so far.
   */
  datatype Window = Window(open: seq<Key>, counted: multiset<Key>)

  const EmptyWindow := Window([], multiset{})

  /** push_front of an empty n-gram, then the new word appended to every open n-gram. */
  function Extend(open: seq<Key>, t: nat): (r: seq<Key>)
    ensures |r| == |open| + 1 && r[0] == [t]
    ensures forall k :: 1 <= k < |r| ==> r[k] == open[k - 1] + [t]
  {
    [[t]] + seq(|open|, k requires 0 <= k < |open| => open[k] + [t])
  }

  /** The n-grams of `ext` that the insertion rule keeps, as a multiset. */
  function CountedOf(ext: seq<Key>, mode: Mode): multiset<Key> {
    if |ext| == 0 then multiset{}
    else CountedOf(ext[..|ext| - 1], mode) + (if Countable(mode, |ext[|ext| - 1]|) then multiset{ext[|ext| - 1]} else multiset{})
  }

  /** An n-gram is counted by one step exactly when it is open after the step and the rule keeps it. */
  lemma {:induction false} CountedOfMembers(ext: seq<Key>, mode: Mode, g: Key)
    ensures g in CountedOf(ext, mode) <==> exists k :: 0 <= k < |ext| && ext[k] == g && Countable(mode, |g|)
  {
    if |ext| > 0 {
      var n := |ext| - 1;
      var init, last := ext[..n], ext[n];
      var extra := if Countable(mode, |last|) then multiset{last} else multiset{};
      assert CountedOf(ext, mode) == CountedOf(init, mode) + extra;
      CountedOfMembers(init, mode, g);
      if g in CountedOf(init, mode) {
        var k :| 0 <= k < n && init[k] == g && Countable(mode, |g|);
        assert ext[k] == g;
      } else if g in extra {
        assert ext[n] == g && Countable(mode, |g|);
      }
      if exists k :: 0 <= k < |ext| && ext[k] == g && Countable(mode, |g|) {
        var k :| 0 <= k < |ext| && ext[k] == g && Countable(mode, |g|);
        if k < n {
          assert init[k] == g;
        } else {
          assert g in extra;
        }
      }
    }
  }

  /**
   * One word through the window: extend, insert what the rule keeps,
   * and drop the longest open n-gram once Order of them are open.
   */
  function Push(w: Window, t: nat, mode: Mode): Window {
    var ext := Extend(w.open, t);
    Window(if |ext| >= Order then ext[..|ext| - 1] else ext, w.counted + CountedOf(ext, mode))
  }

  /** The window after feeding every token of `ws` as a literal word, as Load does for a line. */
  function LineWindow(ws: seq<nat>): Window {
    if |ws| == 0 then EmptyWindow else Push(LineWindow(ws[..|ws| - 1]), ws[|ws| - 1], Literal)
  }

  /** The last `count` tokens' suffixes of `ws`, shortest first. */
  function Suffixes(ws: seq<nat>, count: nat): (r: seq<Key>)
    requires count <= |ws|
    ensures |r| == count && forall k :: 0 <= k < count ==> r[k] == ws[|ws| - 1 - k..]
  {
    seq(count, k requires 0 <= k < count => ws[|ws| - 1 - k..])
  }

  function Min(a: nat, b: nat): nat {
    if a <= b then a else b
  }

  /** `g` occurs in `ws` starting at position j. */
  predicate StartsAt(ws: seq<nat>, g: Key, j: nat) {
    j + |g| <= |ws| && ws[j..j + |g|] == g
  }

  /** The positions where `g` occurs as a contiguous run of `ws`. */
  function Positions(ws: seq<nat>, g: Key): set<nat> {
    set j | 0 <= j <= |ws| && StartsAt(ws, g, j)
  }

  /** Number of positions where `g` occurs as a contiguous run of `ws`. */
  function Occurrences(ws: seq<nat>, g: Key): nat {
    |Positions(ws, g)|
  }

  /**
   * The reference count of a line: an n-gram of order 1..Order counts as
   * often as it occurs, any other key not at all.
   */
  function LineCount(ws: seq<nat>, g: Key): nat {
    if 1 <= |g| <= Order then Occurrences(ws, g) else 0
  }

  /** A run that ends before the last token occurs in the line exactly when it occurs in its prefix. */
  lemma StartsAtPrefix(ws: seq<nat>, g: Key, j: nat)
    requires |ws| > 0 && j + |g| <= |ws| - 1
    ensures StartsAt(ws[..|ws| - 1], g, j) <==> StartsAt(ws, g, j)
  {
    assert ws[..|ws| - 1][j..j + |g|] == ws[j..j + |g|];
  }

  /** A new last token adds the position |ws|-|g| exactly when `g` is a suffix. */
  lemma PositionsStep(ws: seq<nat>, g: Key)
    requires |ws| > 0 && |g| > 0
    ensures Positions(ws, g) == Positions(ws[..|ws| - 1], g) + (if |g| <= |ws| && ws[|ws| - |g|..] == g then {|ws| - |g|} else {})
  {
    var prev := ws[..|ws| - 1];
    forall j | 0 <= j <= |ws|
      ensures j in Positions(ws, g) <==> j in Positions(prev, g) + (if |g| <= |ws| && ws[|ws| - |g|..] == g then {|ws| - |g|} else {})
    {
      if j + |g| <= |prev| {
        StartsAtPrefix(ws, g, j);
      }
    }
  }

  /** A new last token adds one occurrence of `g` exactly when `g` is a suffix. */
  lemma OccurrencesStep(ws: seq<nat>, g: Key)
    requires |ws| > 0 && |g| > 0
    ensures Occurrences(ws, g) == Occurrences(ws[..|ws| - 1], g) + (if |g| <= |ws| && ws[|ws| - |g|..] == g then 1 else 0)
  {
    PositionsStep(ws, g);
    var P := Positions(ws[..|ws| - 1], g);
    if |g| <= |ws| && ws[|ws| - |g|..] == g {
      assert |ws| - |g| !in P;
    }
  }

  /** The n-grams one step inserts: the suffixes of length 1..count, each once. */
  lemma {:induction false} CountedSuffixes(ws: seq<nat>, count: nat, g: Key)
    requires count <= |ws|
    ensures CountedOf(Suffixes(ws, count), Literal)[g] == if 1 <= |g| <= count && ws[|ws| - |g|..] == g then 1 else 0
  {
    if count > 0 {
      var r := Suffixes(ws, count);
      assert r[..count - 1] == Suffixes(ws, count - 1);
      CountedSuffixes(ws, count - 1, g);
      assert |r[count - 1]| == count;
    }
  }

  /** Extending the suffixes of a line by its next token gives the suffixes of the longer line. */
  lemma ExtendSuffixes(ws: seq<nat>, count: nat)
    requires |ws| > 0 && count < |ws|
    ensures Extend(Suffixes(ws[..|ws| - 1], count), ws[|ws| - 1]) == Suffixes(ws, count + 1)
  {
    var prev := ws[..|ws| - 1];
    var t := ws[|ws| - 1];
    var ext := Extend(Suffixes(prev, count), t);
    assert ext[0] == [t] == ws[|ws| - 1..];
    forall k | 1 <= k < |ext| ensures ext[k] == Suffixes(ws, count + 1)[k] {
      assert prev[|prev| - k..] + [t] == ws[|ws| - 1 - k..];
    }
  }

  /**
   * The open n-grams after a line are its last min(|ws|, Order - 1)
   * suffixes: at most Order - 1 stay open, the Order-gram is dropped once
   * counted.
   */
  lemma {:induction false} LineWindowOpen(ws: seq<nat>)
    ensures LineWindow(ws).open == Suffixes(ws, Min(|ws|, Order - 1))
  {
    if |ws| > 0 {
      var prev := ws[..|ws| - 1];
      LineWindowOpen(prev);
      var c := Min(|prev|, Order - 1);
      ExtendSuffixes(ws, c);
      if c + 1 >= Order {
        assert Suffixes(ws, c + 1)[..c] == Suffixes(ws, Min(|ws|, Order - 1));
      }
    }
  }

  /** Every n-gram of order 1..Order is counted once per occurrence in the line, and nothing else is counted. */
  lemma {:induction false} LineWindowCounts(ws: seq<nat>, g: Key)
    ensures LineWindow(ws).counted[g] == LineCount(ws, g)
  {
    if |ws| == 0 {
      if 1 <= |g| {
        NoRoomNoOccurrence(ws, g);
      }
    } else {
      var prev := ws[..|ws| - 1];
      LineWindowOpen(prev);
      LineWindowCounts(prev, g);
      var c := Min(|prev|, Order - 1);
      ExtendSuffixes(ws, c);
      CountedSuffixes(ws, c + 1, g);
      if 1 <= |g| <= Order {
        OccurrencesStep(ws, g);
        if |g| > |prev| + 1 {
          NoRoomNoOccurrence(prev, g);
        }
      }
    }
  }

  /** An n-gram longer than the line does not occur in it. */
  lemma NoRoomNoOccurrence(ws: seq<nat>, g: Key)
    requires |g| > |ws|
    ensures Occurrences(ws, g) == 0
  {
    assert (set j | 0 <= j <= |ws| && StartsAt(ws, g, j)) == {};
  }

  /**
   * One word through the list of open n-grams, as the loops of Load and
   * Score write it: push_front an empty n-gram, append the word to each
   * open n-gram in list order and insert those the rule keeps, then
   * pop_back once Order n-grams are open.
   */
  method PushWord(open: seq<Key>, counted: multiset<Key>, t: nat, mode: Mode) returns (open': seq<Key>, counted': multiset<Key>)
    ensures Window(open', counted') == Push(Window(open, counted), t, mode)
  {
    open' := [[]] + open;
    counted' := counted;
    var k := 0;
    while k < |open'|
      invariant PushInv(open, counted, t, mode, k, open', counted')
      decreases |open| + 1 - k
    {
      PushStep(open, counted, t, mode, k, open', counted');
      var g := open'[k] + [t];
      open' := open'[k := g];
      if Countable(mode, |g|) {
        counted' := counted' + multiset{g};
      }
      k := k + 1;
    }
    PushFinish(open, counted, t, mode, open', counted');
    if |open'| >= Order {
      open' := open'[..|open'| - 1];
    }
  }

  /** PushWord's loop after k turns: the first k open n-grams are extended and counted. */
  predicate PushInv(open: seq<Key>, counted: multiset<Key>, t: nat, mode: Mode, k: nat, open': seq<Key>, counted': multiset<Key>) {
    var ext := Extend(open, t);
    var base := [[]] + open;
    && k <= |open'| == |ext| == |base|
    && open' == ext[..k] + base[k..]
    && counted' == counted + CountedOf(ext[..k], mode)
  }

  /** After the last turn the open n-grams are the extended ones and the counted ones are those Push inserts. */
  lemma PushFinish(open: seq<Key>, counted: multiset<Key>, t: nat, mode: Mode, open': seq<Key>, counted': multiset<Key>)
    requires PushInv(open, counted, t, mode, |open'|, open', counted')
    ensures var w := Push(Window(open, counted), t, mode);
            w == Window(if |open'| >= Order then open'[..|open'| - 1] else open', counted')
  {
    var ext := Extend(open, t);
    assert ext[..|ext|] == ext;
    assert open' == ext;
  }

  /** One turn of PushWord's loop keeps PushInv. */
  lemma PushStep(open: seq<Key>, counted: multiset<Key>, t: nat, mode: Mode, k: nat, open': seq<Key>, counted': multiset<Key>)
    requires PushInv(open, counted, t, mode, k, open', counted') && k < |open'|
    ensures var o := open'[k := open'[k] + [t]];
            PushInv(open, counted, t, mode, k + 1, o, if Countable(mode, |o[k]|) then counted' + multiset{o[k]} else counted')
  {
    var ext := Extend(open, t);
    var base := [[]] + open;
    assert ext[k] == base[k] + [t];
    assert ext[..k + 1][..k] == ext[..k];
    var o := open'[k := open'[k] + [t]];
    assert o == ext[..k + 1] + base[k + 1..];
  }
}
