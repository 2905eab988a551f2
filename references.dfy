/**
 * The reference n-gram index (ReferenceSet in mert/ForestRescore.h and
 * .cpp): for every reference sentence, a map from n-gram key to the pair
 * (clipped count, unclipped count), merged over all reference files, and
 * the minimum reference length.
 */
module References {
  import opened Wrappers
  import opened Text
  import opened Vocabulary
  import opened Ngram

  /** NgramMap: key to (clipped, unclipped) count. */
  type NgramMap = map<Key, (nat, nat)>

  /** The counts of `g`, (0, 0) when the map has no entry. */
  function Lookup(m: NgramMap, g: Key): (nat, nat) {
    if g in m then m[g] else (0, 0)
  }

  function Max(a: nat, b: nat): nat {
    if a >= b then a else b
  }

  /** The distinct n-grams of a counter. */
  function Support(c: multiset<Key>): set<Key> {
    set g | g in c
  }

  /**
   * The map after one visit of each n-gram of `keys`, with its line count
   * c[g]: a new n-gram gets (c[g], c[g]), a known one takes the max of the
   * clipped count and adds to the unclipped count.
   */
  function MergeKeys(m: NgramMap, c: multiset<Key>, keys: set<Key>): (r: NgramMap)
    ensures forall g :: g in r <==> g in m || g in keys
  {
    map g | g in m.Keys + keys :: if g in keys then (Max(c[g], Lookup(m, g).0), Lookup(m, g).1 + c[g]) else m[g]
  }

  /** The merge of one line's counter into a sentence's map, each distinct n-gram visited once. */
  function MergeCounts(m: NgramMap, c: multiset<Key>): NgramMap {
    MergeKeys(m, c, Support(c))
  }

  /**
   * The merge as the loop at mert/ForestRescore.cpp:75-87 performs it: the
   * iteration runs over every element of the multiset, so an n-gram that
   * occurs k times in the line is visited k times and adds k each time.
   * `done` is the part of the counter visited so far.
   */
  function VisitAll(m: NgramMap, c: multiset<Key>, done: multiset<Key>): (r: NgramMap)
    ensures forall g :: g in r <==> g in m || g in done
  {
    map g | g in m.Keys + Support(done) :: if g in done then (Max(c[g], Lookup(m, g).0), Lookup(m, g).1 + done[g] * c[g]) else m[g]
  }

  function MergeCountsAsWritten(m: NgramMap, c: multiset<Key>): NgramMap {
    VisitAll(m, c, c)
  }

  /** One more visited n-gram: its entry becomes the merged pair, computed from what the map had before. */
  lemma MergeKeysStep(m: NgramMap, c: multiset<Key>, done: set<Key>, g: Key)
    requires g !in done
    ensures Lookup(MergeKeys(m, c, done), g) == Lookup(m, g)
    ensures MergeKeys(m, c, done + {g}) == MergeKeys(m, c, done)[g := (Max(c[g], Lookup(m, g).0), Lookup(m, g).1 + c[g])]
  {
  }

  /** One more visit of an occurrence of `g`: its unclipped count grows by c[g] again. */
  lemma VisitAllStep(m: NgramMap, c: multiset<Key>, done: multiset<Key>, g: Key)
    requires c[g] > 0
    ensures var cur := VisitAll(m, c, done);
            VisitAll(m, c, done + multiset{g}) == cur[g := (Max(c[g], Lookup(cur, g).0), Lookup(cur, g).1 + c[g])]
  {
    var cur := VisitAll(m, c, done);
    var next := VisitAll(m, c, done + multiset{g});
    var v := (Max(c[g], Lookup(cur, g).0), Lookup(cur, g).1 + c[g]);
    var upd := cur[g := v];
    VisitAllKeys(m, c, done, g);
    forall h | h in next
      ensures next[h] == upd[h]
    {
      VisitAllAt(m, c, done, g, h);
    }
    assert next.Keys == upd.Keys;
  }

  /** One more visit adds `g` to the keys of the map and nothing else. */
  lemma VisitAllKeys(m: NgramMap, c: multiset<Key>, done: multiset<Key>, g: Key)
    ensures VisitAll(m, c, done + multiset{g}).Keys == VisitAll(m, c, done).Keys + {g}
  {
    forall h
      ensures h in done + multiset{g} <==> h in done || h == g
    {
    }
  }

  /** VisitAllStep at one key `h`. */
  lemma VisitAllAt(m: NgramMap, c: multiset<Key>, done: multiset<Key>, g: Key, h: Key)
    requires c[g] > 0
    ensures var cur := VisitAll(m, c, done);
            var next := VisitAll(m, c, done + multiset{g});
            h in next ==> next[h] == cur[g := (Max(c[g], Lookup(cur, g).0), Lookup(cur, g).1 + c[g])][h]
  {
    if h == g {
      VisitAllAtVisited(m, c, done, g);
    } else {
      assert (done + multiset{g})[h] == done[h];
    }
  }

  lemma VisitAllAtVisited(m: NgramMap, c: multiset<Key>, done: multiset<Key>, g: Key)
    requires c[g] > 0
    ensures var cur := VisitAll(m, c, done);
            VisitAll(m, c, done + multiset{g})[g] == (Max(c[g], Lookup(cur, g).0), Lookup(cur, g).1 + c[g])
  {
    var k, n, base := done[g], c[g], Lookup(m, g);
    VisitAllLookup(m, c, done, g);
    VisitAllLookup(m, c, done + multiset{g}, g);
    assert (done + multiset{g})[g] == k + 1;
    MulSucc(k, n);
  }

  /** What VisitAll leaves for one n-gram: the merged pair once visited, the map's entry before. */
  lemma VisitAllLookup(m: NgramMap, c: multiset<Key>, done: multiset<Key>, g: Key)
    ensures Lookup(VisitAll(m, c, done), g)
            == if done[g] > 0 then (Max(c[g], Lookup(m, g).0), Lookup(m, g).1 + done[g] * c[g]) else Lookup(m, g)
  {
  }

  /** k + 1 visits of a count n add k visits' worth and one more. */
  lemma MulSucc(k: nat, n: nat)
    ensures (k + 1) * n == k * n + n
  {
  }

  /** The map list after one more key of the merge loop, as MergeKey leaves it. */
  function KeyStep(counts: seq<NgramMap>, s: nat, g: Key, count: nat): seq<NgramMap> {
    var r := Resize(counts, s + 1);
    r[s := r[s][g := (Max(count, Lookup(r[s], g).0), Lookup(r[s], g).1 + count)]]
  }

  /**
   * The invariant of the merge loop of MergeSentence: `done` are the keys
   * visited, `remaining` the rest; before the first visit the list is
   * untouched, afterwards it reaches sentence `s`, whose map is the merge of
   * the visited keys into what the sentence had.
   */
  ghost predicate MergeInv(counts: seq<NgramMap>, orig: seq<NgramMap>, s: nat, c: multiset<Key>, remaining: set<Key>, done: set<Key>) {
    && remaining + done == Support(c) && remaining !! done
    && (done == {} ==> counts == orig)
    && (done != {} ==> s < |counts|)
    && var r := Resize(orig, s + 1); Resize(counts, s + 1) == r[s := MergeKeys(r[s], c, done)]
  }

  lemma MergeStart(counts: seq<NgramMap>, s: nat, c: multiset<Key>)
    ensures MergeInv(counts, counts, s, c, Support(c), {})
  {
    var r := Resize(counts, s + 1);
    assert MergeKeys(r[s], c, {}) == r[s];
  }

  lemma MergeFinish(counts: seq<NgramMap>, orig: seq<NgramMap>, s: nat, c: multiset<Key>, done: set<Key>)
    requires MergeInv(counts, orig, s, c, {}, done)
    ensures counts == MergeLine(orig, s, c)
  {
    if done == {} {
      assert forall g :: g in c ==> g in Support(c);
      assert c == multiset{};
    } else {
      var g :| g in done;
      assert g in c;
      assert done == {} + done == Support(c);
      assert Resize(counts, s + 1) == counts;
    }
  }

  lemma MergeStep(before: seq<NgramMap>, after: seq<NgramMap>, orig: seq<NgramMap>, s: nat, c: multiset<Key>,
                  remaining: set<Key>, done: set<Key>, g: Key)
    requires MergeInv(before, orig, s, c, remaining, done) && g in remaining
    requires after == KeyStep(before, s, g, c[g])
    ensures MergeInv(after, orig, s, c, remaining - {g}, done + {g})
  {
    var r := Resize(orig, s + 1);
    MergeKeysStep(r[s], c, done, g);
  }

  /** The invariant of the as-written merge loop; `remaining` is what is left of the counter. */
  ghost predicate VisitInv(counts: seq<NgramMap>, orig: seq<NgramMap>, s: nat, c: multiset<Key>, remaining: multiset<Key>) {
    && remaining <= c
    && (remaining == c ==> counts == orig)
    && (remaining != c ==> s < |counts|)
    && var r := Resize(orig, s + 1); Resize(counts, s + 1) == r[s := VisitAll(r[s], c, c - remaining)]
  }

  lemma VisitStart(counts: seq<NgramMap>, s: nat, c: multiset<Key>)
    ensures VisitInv(counts, counts, s, c, c)
  {
    var r := Resize(counts, s + 1);
    assert c - c == multiset{};
    assert VisitAll(r[s], c, multiset{}) == r[s];
  }

  lemma VisitFinish(counts: seq<NgramMap>, orig: seq<NgramMap>, s: nat, c: multiset<Key>)
    requires VisitInv(counts, orig, s, c, multiset{})
    ensures counts == MergeLineAsWritten(orig, s, c)
  {
    assert c - multiset{} == c;
  }

  lemma VisitStep(before: seq<NgramMap>, after: seq<NgramMap>, orig: seq<NgramMap>, s: nat, c: multiset<Key>,
                  remaining: multiset<Key>, g: Key)
    requires VisitInv(before, orig, s, c, remaining) && g in remaining
    requires after == KeyStep(before, s, g, c[g])
    ensures VisitInv(after, orig, s, c, remaining - multiset{g})
  {
    var r := Resize(orig, s + 1);
    var done := c - remaining;
    assert c - (remaining - multiset{g}) == done + multiset{g};
    VisitAllStep(r[s], c, done, g);
    assert (remaining - multiset{g})[g] < c[g];
  }

  /** The merge keeps, for every n-gram, the max of the clipped counts and the sum of the unclipped counts. */
  lemma MergeCountsLookup(m: NgramMap, c: multiset<Key>, g: Key)
    ensures (g in MergeCounts(m, c)) <==> (g in m || c[g] > 0)
    ensures Lookup(MergeCounts(m, c), g) == (Max(c[g], Lookup(m, g).0), Lookup(m, g).1 + c[g])
  {
  }

  /**
   * A line holding one n-gram twice: the merge as written records an
   * unclipped count of 4, the square of the occurrences, where the line
   * holds 2, which the corrected merge records.
   */
  lemma RepeatedNgramMergedTwice()
    ensures var c := multiset{[7], [7]};
            && Lookup(MergeCountsAsWritten(map[], c), [7]) == (2, 4)
            && Lookup(MergeCounts(map[], c), [7]) == (2, 2)
  {
    var g: Key := [7];
    var c := multiset{g, g};
    assert c[g] == 2;
    VisitAllLookup(map[], c, c, g);
    MergeCountsLookup(map[], c, g);
  }

  /** A line without n-grams leaves the map as it is. */
  lemma MergeNothing(m: NgramMap)
    ensures MergeCounts(m, multiset{}) == m
  {
    assert Support(multiset{}) == {};
  }

  /** A list of maps grown to at least n entries, new entries empty (std::vector::resize). */
  function Resize(counts: seq<NgramMap>, n: nat): (r: seq<NgramMap>)
    ensures |r| == if |counts| >= n then |counts| else n
    ensures forall s :: 0 <= s < |counts| ==> r[s] == counts[s]
    ensures forall s :: |counts| <= s < |r| ==> r[s] == map[]
  {
    if |counts| >= n then counts else counts + seq(n - |counts|, _ => map[])
  }

  /**
   * Merging a line's counter into sentence `s`: the list is resized only
   * when the line has at least one n-gram, because the resize sits inside
   * the merge loop.
   */
  function MergeLine(counts: seq<NgramMap>, s: nat, c: multiset<Key>): seq<NgramMap> {
    if c == multiset{} then counts
    else
      var r := Resize(counts, s + 1);
      r[s := MergeCounts(r[s], c)]
  }

  function MergeLineAsWritten(counts: seq<NgramMap>, s: nat, c: multiset<Key>): seq<NgramMap> {
    if c == multiset{} then counts
    else
      var r := Resize(counts, s + 1);
      r[s := MergeCountsAsWritten(r[s], c)]
  }

  /** A length list grown to at least n entries, new entries 0. */
  function ResizeLengths(lengths: seq<nat>, n: nat): (r: seq<nat>)
    ensures |r| == if |lengths| >= n then |lengths| else n
    ensures forall s :: 0 <= s < |lengths| ==> r[s] == lengths[s]
    ensures forall s :: |lengths| <= s < |r| ==> r[s] == 0
  {
    if |lengths| >= n then lengths else lengths + seq(n - |lengths|, _ => 0)
  }

  /** The length rule: 0 means "not set yet", otherwise the minimum is kept. */
  function MinLength(current: nat, length: nat): nat {
    if current == 0 then length else Min(length, current)
  }

  function SetLength(lengths: seq<nat>, s: nat, length: nat): seq<nat> {
    var r := ResizeLengths(lengths, s + 1);
    r[s := MinLength(r[s], length)]
  }

  // ---------------------------------------------------------------------
  // What Load leaves for one sentence, over all the files
  // ---------------------------------------------------------------------

  /** The map of sentence `s`, empty past the end of the list. */
  function MapAt(counts: seq<NgramMap>, s: nat): NgramMap {
    if s < |counts| then counts[s] else map[]
  }

  /** The length of sentence `s`, 0 ("not set") past the end of the list. */
  function LengthAt(lengths: seq<nat>, s: nat): nat {
    if s < |lengths| then lengths[s] else 0
  }

  /** The clipping rule applied to `cs` in order, starting from `a`. */
  function MaxFold(a: nat, cs: seq<nat>): nat {
    if |cs| == 0 then a else Max(cs[|cs| - 1], MaxFold(a, cs[..|cs| - 1]))
  }

  /** The clipping rule keeps the largest of `a` and the elements of `cs`. */
  lemma {:induction false} MaxFoldIsMax(a: nat, cs: seq<nat>)
    ensures a <= MaxFold(a, cs) && forall i :: 0 <= i < |cs| ==> cs[i] <= MaxFold(a, cs)
    ensures MaxFold(a, cs) == a || exists i :: 0 <= i < |cs| && MaxFold(a, cs) == cs[i]
    decreases |cs|
  {
    if |cs| > 0 {
      var prefix := cs[..|cs| - 1];
      MaxFoldIsMax(a, prefix);
      assert forall i :: 0 <= i < |prefix| ==> prefix[i] == cs[i];
    }
  }

  function Sum(cs: seq<nat>): nat {
    if |cs| == 0 then 0 else Sum(cs[..|cs| - 1]) + cs[|cs| - 1]
  }

  /** The length rule applied to `ls` in order, starting from `a`. */
  function MinFold(a: nat, ls: seq<nat>): nat {
    if |ls| == 0 then a else MinLength(MinFold(a, ls[..|ls| - 1]), ls[|ls| - 1])
  }

  /** While no length is 0, the length rule keeps the minimum of `a` (unless 0) and the elements of `ls`. */
  lemma {:induction false} MinFoldIsMin(a: nat, ls: seq<nat>)
    requires forall i :: 0 <= i < |ls| ==> ls[i] > 0
    ensures forall i :: 0 <= i < |ls| ==> MinFold(a, ls) <= ls[i]
    ensures a > 0 ==> MinFold(a, ls) <= a
    ensures a > 0 || |ls| > 0 ==> MinFold(a, ls) > 0
    ensures MinFold(a, ls) == a || exists i :: 0 <= i < |ls| && MinFold(a, ls) == ls[i]
    decreases |ls|
  {
    if |ls| > 0 {
      var prefix := ls[..|ls| - 1];
      assert forall i :: 0 <= i < |prefix| ==> prefix[i] == ls[i];
      MinFoldIsMin(a, prefix);
    }
  }

  /** The line count of `g` in line `s` of every file that has a line `s`, file by file. */
  function CountsAt(files: seq<seq<multiset<Key>>>, s: nat, g: Key): seq<nat> {
    if |files| == 0 then []
    else
      var last := files[|files| - 1];
      CountsAt(files[..|files| - 1], s, g) + (if s < |last| then [last[s][g]] else [])
  }

  /** The length of line `s` of every file that has a line `s`, file by file. */
  function LengthsAt(files: seq<seq<seq<nat>>>, s: nat): seq<nat> {
    if |files| == 0 then []
    else
      var last := files[|files| - 1];
      LengthsAt(files[..|files| - 1], s) + (if s < |last| then [|last[s]|] else [])
  }

  /** Merging a line into sentence `s` changes that sentence's pairs only, by max and by sum. */
  lemma MergeLineAt(counts: seq<NgramMap>, s: nat, c: multiset<Key>, t: nat, g: Key)
    ensures var prev := Lookup(MapAt(counts, s), g);
            Lookup(MapAt(MergeLine(counts, s, c), t), g)
              == if t == s then (Max(c[g], prev.0), prev.1 + c[g]) else Lookup(MapAt(counts, t), g)
  {
    if c != multiset{} {
      var r := Resize(counts, s + 1);
      assert MapAt(r, s) == MapAt(counts, s);
      assert MapAt(r, t) == MapAt(counts, t);
      MergeCountsLookup(r[s], c, g);
    }
  }

  /** A way of merging a line's counter into sentence `s` of a map list. */
  type Merge = (seq<NgramMap>, nat, multiset<Key>) -> seq<NgramMap>

  /** The counters of a file's lines merged one after the other, line l into sentence l. */
  function FoldLines(counts: seq<NgramMap>, lines: seq<multiset<Key>>, merge: Merge): seq<NgramMap> {
    if |lines| == 0 then counts
    else merge(FoldLines(counts, lines[..|lines| - 1], merge), |lines| - 1, lines[|lines| - 1])
  }

  /** The files merged one after the other. */
  function FoldFiles(counts: seq<NgramMap>, files: seq<seq<multiset<Key>>>, merge: Merge): seq<NgramMap> {
    if |files| == 0 then counts else FoldLines(FoldFiles(counts, files[..|files| - 1], merge), files[|files| - 1], merge)
  }

  /** `merge` touches sentence `s` only, taking the max of the clipped counts and the sum of the unclipped ones. */
  ghost predicate MergesByKey(merge: Merge) {
    forall counts: seq<NgramMap>, s: nat, c: multiset<Key>, t: nat, g: Key ::
      Lookup(MapAt(merge(counts, s, c), t), g)
        == if t == s then (Max(c[g], Lookup(MapAt(counts, s), g).0), Lookup(MapAt(counts, s), g).1 + c[g]) else Lookup(MapAt(counts, t), g)
  }

  lemma MergeLineByKey()
    ensures MergesByKey(MergeLine)
  {
    forall counts: seq<NgramMap>, s: nat, c: multiset<Key>, t: nat, g: Key
      ensures Lookup(MapAt(MergeLine(counts, s, c), t), g)
                == if t == s then (Max(c[g], Lookup(MapAt(counts, s), g).0), Lookup(MapAt(counts, s), g).1 + c[g]) else Lookup(MapAt(counts, t), g)
    {
      MergeLineAt(counts, s, c, t, g);
    }
  }

  /** After one file, line s of the file merged into sentence s. */
  lemma {:induction false} FoldLinesAt(counts: seq<NgramMap>, lines: seq<multiset<Key>>, merge: Merge, s: nat, g: Key)
    requires MergesByKey(merge)
    ensures var prev := Lookup(MapAt(counts, s), g);
            Lookup(MapAt(FoldLines(counts, lines, merge), s), g)
              == if s < |lines| then (Max(lines[s][g], prev.0), prev.1 + lines[s][g]) else prev
    decreases |lines|
  {
    if |lines| > 0 {
      var k, prefix := |lines| - 1, lines[..|lines| - 1];
      FoldLinesAt(counts, prefix, merge, s, g);
      FoldLinesAt(counts, prefix, merge, k, g);
      if s < k {
        assert prefix[s] == lines[s];
      }
    }
  }

  /** CountsAt with one more file. */
  lemma CountsAtSnoc(files: seq<seq<multiset<Key>>>, s: nat, g: Key, a: nat)
    requires |files| > 0
    ensures var last, cs := files[|files| - 1], CountsAt(files[..|files| - 1], s, g);
            && MaxFold(a, CountsAt(files, s, g)) == (if s < |last| then Max(last[s][g], MaxFold(a, cs)) else MaxFold(a, cs))
            && Sum(CountsAt(files, s, g)) == (if s < |last| then Sum(cs) + last[s][g] else Sum(cs))
  {
    var last, cs := files[|files| - 1], CountsAt(files[..|files| - 1], s, g);
    if s < |last| {
      FoldSnoc(a, cs, last[s][g]);
    } else {
      assert cs + [] == cs;
    }
  }

  /** After every file: the clipped count is the max of the per-file counts, the unclipped count their sum. */
  lemma {:induction false} FoldFilesAt(counts: seq<NgramMap>, files: seq<seq<multiset<Key>>>, merge: Merge, s: nat, g: Key)
    requires MergesByKey(merge)
    ensures var prev := Lookup(MapAt(counts, s), g);
            Lookup(MapAt(FoldFiles(counts, files, merge), s), g)
              == (MaxFold(prev.0, CountsAt(files, s, g)), prev.1 + Sum(CountsAt(files, s, g)))
    decreases |files|
  {
    if |files| > 0 {
      var prefix := files[..|files| - 1];
      FoldFilesAt(counts, prefix, merge, s, g);
      FoldLinesAt(FoldFiles(counts, prefix, merge), files[|files| - 1], merge, s, g);
      CountsAtSnoc(files, s, g, Lookup(MapAt(counts, s), g).0);
    }
  }

  /**
   * Load's n-gram maps: for every sentence and n-gram, the clipped count
   * is the max of the line counts across the files, the unclipped count
   * their sum, each on top of what the maps held before.
   */
  lemma LoadCountsAt(counts: seq<NgramMap>, files: seq<seq<multiset<Key>>>, s: nat, g: Key)
    ensures var prev := Lookup(MapAt(counts, s), g);
            Lookup(MapAt(LoadCounts(counts, files), s), g)
              == (MaxFold(prev.0, CountsAt(files, s, g)), prev.1 + Sum(CountsAt(files, s, g)))
  {
    MergeLineByKey();
    FoldFilesAt(counts, files, MergeLine, s, g);
  }

  lemma FoldSnoc(a: nat, cs: seq<nat>, x: nat)
    ensures MaxFold(a, cs + [x]) == Max(x, MaxFold(a, cs)) && Sum(cs + [x]) == Sum(cs) + x
  {
    assert (cs + [x])[..|cs|] == cs;
  }

  lemma {:induction false} MaxFoldBelowSum(a: nat, b: nat, cs: seq<nat>)
    requires a <= b
    ensures MaxFold(a, cs) <= b + Sum(cs)
    decreases |cs|
  {
    if |cs| > 0 {
      MaxFoldBelowSum(a, b, cs[..|cs| - 1]);
    }
  }

  /** Clipped never exceeds unclipped, in any sentence, once a map list that has the property is loaded into. */
  lemma LoadClipBelow(counts: seq<NgramMap>, files: seq<seq<multiset<Key>>>)
    requires ClipBelow(counts)
    ensures ClipBelow(LoadCounts(counts, files))
  {
    var r: seq<NgramMap> := LoadCounts(counts, files);
    forall s: nat, g: Key | s < |r| && g in r[s]
      ensures r[s][g].0 <= r[s][g].1
    {
      LoadCountsAt(counts, files, s, g);
      var prev := Lookup(MapAt(counts, s), g);
      assert prev.0 <= prev.1;
      MaxFoldBelowSum(prev.0, prev.1, CountsAt(files, s, g));
      assert MapAt(r, s) == r[s];
    }
  }

  lemma SetLengthAt(lengths: seq<nat>, s: nat, length: nat, t: nat)
    ensures LengthAt(SetLength(lengths, s, length), t) == if t == s then MinLength(LengthAt(lengths, s), length) else LengthAt(lengths, t)
  {
  }

  lemma {:induction false} FileLengthsAt(lengths: seq<nat>, lines: seq<seq<nat>>, s: nat)
    ensures LengthAt(FileLengths(lengths, lines), s) == if s < |lines| then MinLength(LengthAt(lengths, s), |lines[s]|) else LengthAt(lengths, s)
    decreases |lines|
  {
    if |lines| > 0 {
      var k, prefix := |lines| - 1, lines[..|lines| - 1];
      FileLengthsAt(lengths, prefix, s);
      FileLengthsAt(lengths, prefix, k);
      SetLengthAt(FileLengths(lengths, prefix), k, |lines[k]|, s);
      if s < k {
        assert prefix[s] == lines[s];
      }
    }
  }

  /** After every file, the length of sentence `s` is the length rule folded over its lines, file by file. */
  lemma {:induction false} LoadLengthsAt(lengths: seq<nat>, files: seq<seq<seq<nat>>>, s: nat)
    ensures LengthAt(LoadLengths(lengths, files), s) == MinFold(LengthAt(lengths, s), LengthsAt(files, s))
    decreases |files|
  {
    if |files| > 0 {
      var prefix, last := files[..|files| - 1], files[|files| - 1];
      LoadLengthsAt(lengths, prefix, s);
      FileLengthsAt(LoadLengths(lengths, prefix), last, s);
      var ls := LengthsAt(prefix, s);
      if s < |last| {
        var ls' := ls + [|last[s]|];
        assert ls'[..|ls'| - 1] == ls;
      } else {
        assert ls + [] == ls;
      }
    }
  }

  /**
   * With 0 as "not set", an empty reference line resets the minimum: after
   * lines of lengths 3, 0 and 5 the recorded length is 5.
   */
  lemma EmptyLineResetsLength()
    ensures MinFold(0, [3, 0, 5]) == 5
  {
    assert [3, 0, 5][..2] == [3, 0];
    assert [3, 0][..1] == [3];
    assert [3][..0] == [];
  }

  /** Every word of the line has been interned in `m`. */
  predicate LineInterned(line: string, m: map<string, nat>) {
    forall w :: 0 <= w < |Words(line)| ==> Words(line)[w] in m
  }

  predicate LinesInterned(lines: seq<string>, m: map<string, nat>) {
    forall l :: 0 <= l < |lines| ==> LineInterned(lines[l], m)
  }

  predicate FilesInterned(files: seq<seq<string>>, m: map<string, nat>) {
    forall f :: 0 <= f < |files| ==> LinesInterned(files[f], m)
  }

  /** The key sequence of a line, of every line of a file, of every file, under the vocabulary map `m`. */
  function LineKeys(line: string, m: map<string, nat>): seq<nat>
    requires LineInterned(line, m)
  {
    Indices(Words(line), m)
  }

  function FileKeys(lines: seq<string>, m: map<string, nat>): (r: seq<seq<nat>>)
    requires LinesInterned(lines, m)
    ensures |r| == |lines| && forall l :: 0 <= l < |lines| ==> r[l] == LineKeys(lines[l], m)
  {
    seq(|lines|, l requires 0 <= l < |lines| => LineKeys(lines[l], m))
  }

  function AllKeys(files: seq<seq<string>>, m: map<string, nat>): (r: seq<seq<seq<nat>>>)
    requires FilesInterned(files, m)
    ensures |r| == |files| && forall f :: 0 <= f < |files| ==> r[f] == FileKeys(files[f], m)
  {
    seq(|files|, f requires 0 <= f < |files| => FileKeys(files[f], m))
  }

  /** The n-gram counter of every line of a file, of every file. */
  function Counters(lines: seq<seq<nat>>): (r: seq<multiset<Key>>)
    ensures |r| == |lines| && forall l :: 0 <= l < |lines| ==> r[l] == LineWindow(lines[l]).counted
  {
    seq(|lines|, l requires 0 <= l < |lines| => LineWindow(lines[l]).counted)
  }

  function AllCounters(files: seq<seq<seq<nat>>>): (r: seq<seq<multiset<Key>>>)
    ensures |r| == |files| && forall f :: 0 <= f < |files| ==> r[f] == Counters(files[f])
  {
    seq(|files|, f requires 0 <= f < |files| => Counters(files[f]))
  }

  lemma CountersPrefix(lines: seq<seq<nat>>, k: nat)
    requires k <= |lines|
    ensures Counters(lines)[..k] == Counters(lines[..k])
  {
    var a, b := Counters(lines)[..k], Counters(lines[..k]);
    forall l | 0 <= l < k
      ensures a[l] == b[l]
    {
      assert lines[..k][l] == lines[l];
    }
  }

  lemma AllCountersPrefix(files: seq<seq<seq<nat>>>, k: nat)
    requires k <= |files|
    ensures AllCounters(files)[..k] == AllCounters(files[..k])
  {
    var a, b := AllCounters(files)[..k], AllCounters(files[..k]);
    forall f | 0 <= f < k
      ensures a[f] == b[f]
    {
      assert files[..k][f] == files[f];
    }
  }

  /** The maps after the lines of one file, the counter of line l merged into sentence l. */
  function FileCounts(counts: seq<NgramMap>, lines: seq<multiset<Key>>): seq<NgramMap> {
    FoldLines(counts, lines, MergeLine)
  }

  function FileLengths(lengths: seq<nat>, lines: seq<seq<nat>>): seq<nat> {
    if |lines| == 0 then lengths
    else SetLength(FileLengths(lengths, lines[..|lines| - 1]), |lines| - 1, |lines[|lines| - 1]|)
  }

  /** The maps after every file, one after the other. */
  function LoadCounts(counts: seq<NgramMap>, files: seq<seq<multiset<Key>>>): seq<NgramMap> {
    FoldFiles(counts, files, MergeLine)
  }

  function LoadLengths(lengths: seq<nat>, files: seq<seq<seq<nat>>>): seq<nat> {
    if |files| == 0 then lengths else FileLengths(LoadLengths(lengths, files[..|files| - 1]), files[|files| - 1])
  }

  /** Clipped never exceeds unclipped, in every sentence's map. */
  ghost predicate ClipBelow(counts: seq<NgramMap>) {
    forall s, g :: 0 <= s < |counts| && g in counts[s] ==> counts[s][g].0 <= counts[s][g].1
  }

  /**
   * NgramMatches on the list of maps: SentenceOutOfRange past the end of
   * the list (std::vector::at), 0 for an n-gram the sentence does not
   * have, otherwise the clipped or the unclipped count.
   */
  function Matches(counts: seq<NgramMap>, s: nat, g: Key, clip: bool): Result<nat> {
    if s >= |counts| then Err(SentenceOutOfRange)
    else if g !in counts[s] then Ok(0)
    else Ok(if clip then counts[s][g].0 else counts[s][g].1)
  }

  class ReferenceSet {
    /** ngramCounts_: one NgramMap per reference sentence. */
    var ngramCounts: seq<NgramMap>
    /** lengths_: the reference length of every sentence. */
    var lengths: seq<nat>

    ghost predicate Valid()
      reads this
    {
      ClipBelow(ngramCounts)
    }

    constructor ()
      ensures Valid() && ngramCounts == [] && lengths == []
    {
      ngramCounts := [];
      lengths := [];
    }

    /** NgramMatches(sentenceId, ngram, clip): the n-gram is looked up by its key. */
    function NgramMatches(sentenceId: nat, ngram: seq<Entry>, clip: bool): (r: Result<nat>)
      reads this
      ensures r == Matches(ngramCounts, sentenceId, KeyOf(ngram), clip)
    {
      Matches(ngramCounts, sentenceId, KeyOf(ngram), clip)
    }

    /**
     * The merge loop of Load for sentence `s`, one visit per distinct
     * n-gram of the line's counter.
     */
    method MergeSentence(s: nat, counter: multiset<Key>)
      modifies this
      ensures lengths == old(lengths)
      ensures ngramCounts == MergeLine(old(ngramCounts), s, counter)
    {
      var remaining := Support(counter);
      ghost var done: set<Key> := {};
      MergeStart(ngramCounts, s, counter);
      while remaining != {}
        invariant lengths == old(lengths)
        invariant MergeInv(ngramCounts, old(ngramCounts), s, counter, remaining, done)
        decreases |remaining|
      {
        var g :| g in remaining;
        var count := counter[g];
        ghost var before := ngramCounts;
        MergeKey(s, g, count);
        MergeStep(before, ngramCounts, old(ngramCounts), s, counter, remaining, done, g);
        remaining := remaining - {g};
        done := done + {g};
      }
      MergeFinish(ngramCounts, old(ngramCounts), s, counter, done);
    }

    /**
     * The body of the merge loop: the list is grown to reach sentence `s`,
     * then `g` is inserted with (count, count) or its pair is updated, the
     * clipped count to the max and the unclipped count by addition.
     */
    method MergeKey(s: nat, g: Key, count: nat)
      modifies this
      ensures lengths == old(lengths)
      ensures ngramCounts == KeyStep(old(ngramCounts), s, g, count)
    {
      if |ngramCounts| <= s {
        ngramCounts := ngramCounts + seq(s + 1 - |ngramCounts|, _ => map[]);
      }
      var m: NgramMap := ngramCounts[s];
      if g !in m {
        m := m[g := (count, count)];
      } else {
        m := m[g := (Max(count, m[g].0), m[g].1 + count)];
      }
      ngramCounts := ngramCounts[s := m];
    }

    /**
     * The merge loop of Load as written: every element of the multiset is
     * visited, repeated n-grams once per occurrence.
     */
    method MergeSentenceAsWritten(s: nat, counter: multiset<Key>)
      modifies this
      ensures lengths == old(lengths)
      ensures ngramCounts == MergeLineAsWritten(old(ngramCounts), s, counter)
    {
      var remaining := counter;
      VisitStart(ngramCounts, s, counter);
      while remaining != multiset{}
        invariant lengths == old(lengths)
        invariant VisitInv(ngramCounts, old(ngramCounts), s, counter, remaining)
        decreases |remaining|
      {
        var g :| g in remaining;
        var count := counter[g];
        ghost var before := ngramCounts;
        MergeKey(s, g, count);
        VisitStep(before, ngramCounts, old(ngramCounts), s, counter, remaining, g);
        remaining := remaining - multiset{g};
      }
      VisitFinish(ngramCounts, old(ngramCounts), s, counter);
    }

    /** The length update of Load for sentence `s`. */
    method SetSentenceLength(s: nat, length: nat)
      modifies this
      ensures ngramCounts == old(ngramCounts)
      ensures lengths == SetLength(old(lengths), s, length)
    {
      if |lengths| <= s {
        lengths := lengths + seq(s + 1 - |lengths|, _ => 0);
      }
      if lengths[s] == 0 {
        lengths := lengths[s := length];
      } else {
        lengths := lengths[s := Min(length, lengths[s])];
      }
    }

    /**
     * Load(files, vocab): every line of every file, line l of a file being
     * reference sentence l, is tokenised and interned, its n-grams counted
     * and merged, and its length recorded.
     */
    method Load(files: seq<seq<string>>, vocab: Vocab)
      requires vocab.Valid()
      modifies this, vocab
      ensures vocab.Valid() && Extends(old(vocab.index), vocab.index)
      ensures FilesInterned(files, vocab.index)
      ensures ngramCounts == LoadCounts(old(ngramCounts), AllCounters(AllKeys(files, vocab.index)))
      ensures lengths == LoadLengths(old(lengths), AllKeys(files, vocab.index))
    {
      var i := 0;
      while i < |files|
        invariant 0 <= i <= |files|
        invariant vocab.Valid() && Extends(old(vocab.index), vocab.index)
        invariant FilesInterned(files[..i], vocab.index)
        invariant ngramCounts == LoadCounts(old(ngramCounts), AllCounters(AllKeys(files[..i], vocab.index)))
        invariant lengths == LoadLengths(old(lengths), AllKeys(files[..i], vocab.index))
      {
        ghost var before := vocab.index;
        ghost var counts := ngramCounts;
        ghost var lens := lengths;
        LoadFile(files[i], vocab);
        ExtendsTrans(old(vocab.index), before, vocab.index);
        LoadFileStep(old(ngramCounts), old(lengths), files, i, before, vocab.index);
        i := i + 1;
      }
      assert files[..i] == files;
    }

    /** The lines of one file, line l as sentence l. */
    method LoadFile(lines: seq<string>, vocab: Vocab)
      requires vocab.Valid()
      modifies this, vocab
      ensures vocab.Valid() && Extends(old(vocab.index), vocab.index)
      ensures LinesInterned(lines, vocab.index)
      ensures ngramCounts == FileCounts(old(ngramCounts), Counters(FileKeys(lines, vocab.index)))
      ensures lengths == FileLengths(old(lengths), FileKeys(lines, vocab.index))
    {
      var sentenceId := 0;
      assert lines[..0] == [];
      while sentenceId < |lines|
        invariant 0 <= sentenceId <= |lines|
        invariant vocab.Valid() && Extends(old(vocab.index), vocab.index)
        invariant FileLoaded(ngramCounts, lengths, old(ngramCounts), old(lengths), lines, sentenceId, vocab.index)
      {
        ghost var before := vocab.index;
        ghost var counts := ngramCounts;
        ghost var lens := lengths;
        var counter, length := CountLine(lines[sentenceId], vocab);
        ExtendsTrans(old(vocab.index), before, vocab.index);
        MergeSentence(sentenceId, counter);
        SetSentenceLength(sentenceId, length);
        LoadLineStep(counts, lens, ngramCounts, lengths, old(ngramCounts), old(lengths), lines, sentenceId, before, vocab.index);
        sentenceId := sentenceId + 1;
      }
      assert lines[..sentenceId] == lines;
    }
  }

  /**
   * The tokenise-and-count loop of Load for one line: each word is
   * interned and pushed through the window of open n-grams.
   */
  method CountLine(line: string, vocab: Vocab) returns (counter: multiset<Key>, length: nat)
    requires vocab.Valid()
    modifies vocab
    ensures vocab.Valid() && Extends(old(vocab.index), vocab.index)
    ensures LineInterned(line, vocab.index)
    ensures length == |LineKeys(line, vocab.index)|
    ensures counter == LineWindow(LineKeys(line, vocab.index)).counted
  {
    var toks := Words(line);
    var open: seq<Key> := [];
    counter := multiset{};
    length := 0;
    ghost var ws: seq<nat> := [];
    while length < |toks|
      invariant vocab.Valid() && Extends(old(vocab.index), vocab.index)
      invariant CountedSoFar(toks, length, vocab.index, ws, Window(open, counter))
    {
      ghost var before := vocab.index;
      open, counter, ws := CountWord(toks, length, vocab, open, counter, ws);
      ExtendsTrans(old(vocab.index), before, vocab.index);
      length := length + 1;
    }
    CountFinish(line, length, vocab.index, ws, Window(open, counter));
  }

  /** One iteration of CountLine: token k interned and its index pushed through the window. */
  method CountWord(toks: seq<string>, k: nat, vocab: Vocab, open: seq<Key>, counter: multiset<Key>, ghost ws: seq<nat>)
    returns (open': seq<Key>, counter': multiset<Key>, ghost ws': seq<nat>)
    requires vocab.Valid() && k < |toks| && CountedSoFar(toks, k, vocab.index, ws, Window(open, counter))
    modifies vocab
    ensures vocab.Valid() && Extends(old(vocab.index), vocab.index)
    ensures CountedSoFar(toks, k + 1, vocab.index, ws', Window(open', counter'))
  {
    ghost var before := vocab.index;
    var nextTok := vocab.FindOrAdd(toks[k]);
    CountStep(toks, k, before, vocab.index, ws, Window(open, counter), nextTok.index);
    open', counter' := PushWord(open, counter, nextTok.index, Literal);
    ws' := ws + [nextTok.index];
  }

  /** The first k tokens of `toks` are interned in `m`, `ws` holds their indices and `w` is their window. */
  ghost predicate CountedSoFar(toks: seq<string>, k: nat, m: map<string, nat>, ws: seq<nat>, w: Window) {
    && k <= |toks| && TokensInterned(toks[..k], m)
    && ws == Indices(toks[..k], m) && w == LineWindow(ws)
  }

  /** Interning token k and pushing its index keeps CountedSoFar one token further on. */
  lemma CountStep(toks: seq<string>, k: nat, m: map<string, nat>, m': map<string, nat>, ws: seq<nat>, w: Window, t: nat)
    requires k < |toks| && CountedSoFar(toks, k, m, ws, w)
    requires Extends(m, m') && toks[k] in m' && m'[toks[k]] == t
    ensures CountedSoFar(toks, k + 1, m', ws + [t], Push(w, t, Literal))
  {
    IndicesSnoc(toks, k, m, m');
    LineWindowSnoc(ws, t);
  }

  /** Once every token of the line is counted, `ws` is its key sequence. */
  lemma CountFinish(line: string, k: nat, m: map<string, nat>, ws: seq<nat>, w: Window)
    requires k >= |Words(line)| && CountedSoFar(Words(line), k, m, ws, w)
    ensures LineInterned(line, m) && k == |LineKeys(line, m)| && w == LineWindow(LineKeys(line, m))
  {
    var toks := Words(line);
    assert toks[..k] == toks;
  }

  /** Every token of `toks` has an index in `m`. */
  predicate TokensInterned(toks: seq<string>, m: map<string, nat>) {
    forall w :: 0 <= w < |toks| ==> toks[w] in m
  }

  /** Interning the next token keeps the indices of the earlier ones and appends the new one's. */
  lemma IndicesSnoc(toks: seq<string>, k: nat, m: map<string, nat>, m': map<string, nat>)
    requires k < |toks| && TokensInterned(toks[..k], m) && Extends(m, m') && toks[k] in m'
    ensures TokensInterned(toks[..k + 1], m')
    ensures Indices(toks[..k + 1], m') == Indices(toks[..k], m) + [m'[toks[k]]]
  {
    IndicesStable(toks[..k], m, m');
    assert toks[..k + 1][..k] == toks[..k];
  }

  /** Feeding one more literal word extends the line window by one Push. */
  lemma LineWindowSnoc(ws: seq<nat>, t: nat)
    ensures LineWindow(ws + [t]) == Push(LineWindow(ws), t, Literal)
  {
    assert (ws + [t])[..|ws|] == ws;
  }

  lemma FileKeysStable(lines: seq<string>, m: map<string, nat>, m': map<string, nat>)
    requires LinesInterned(lines, m) && Extends(m, m')
    ensures LinesInterned(lines, m') && FileKeys(lines, m') == FileKeys(lines, m)
  {
    forall l | 0 <= l < |lines| ensures LineInterned(lines[l], m') && LineKeys(lines[l], m') == LineKeys(lines[l], m) {
      IndicesStable(Words(lines[l]), m, m');
    }
  }

  /** One more line of a file: the keys of the earlier lines stay, the new line's keys are appended. */
  lemma FileKeysSnoc(lines: seq<string>, k: nat, m: map<string, nat>, m': map<string, nat>)
    requires k < |lines| && LinesInterned(lines[..k], m) && Extends(m, m') && LineInterned(lines[k], m')
    ensures LinesInterned(lines[..k + 1], m')
    ensures FileKeys(lines[..k + 1], m')[..k] == FileKeys(lines[..k], m)
    ensures FileKeys(lines[..k + 1], m')[k] == LineKeys(lines[k], m')
  {
    FileKeysStable(lines[..k], m, m');
    assert lines[..k + 1][..k] == lines[..k];
  }

  /** The first k lines of a file have been loaded over the maps `orig` and lengths `origLens`. */
  predicate FileLoaded(counts: seq<NgramMap>, lens: seq<nat>, orig: seq<NgramMap>, origLens: seq<nat>,
                       lines: seq<string>, k: nat, m: map<string, nat>) {
    && k <= |lines|
    && LinesInterned(lines[..k], m)
    && counts == FileCounts(orig, Counters(FileKeys(lines[..k], m)))
    && lens == FileLengths(origLens, FileKeys(lines[..k], m))
  }

  /** One more line: the fold over the file's lines takes one more MergeLine and SetLength. */
  lemma LoadLineStep(counts: seq<NgramMap>, lens: seq<nat>, counts': seq<NgramMap>, lens': seq<nat>,
                     orig: seq<NgramMap>, origLens: seq<nat>, lines: seq<string>, k: nat, m: map<string, nat>, m': map<string, nat>)
    requires k < |lines| && FileLoaded(counts, lens, orig, origLens, lines, k, m)
    requires Extends(m, m') && LineInterned(lines[k], m')
    requires counts' == MergeLine(counts, k, LineWindow(LineKeys(lines[k], m')).counted)
    requires lens' == SetLength(lens, k, |LineKeys(lines[k], m')|)
    ensures FileLoaded(counts', lens', orig, origLens, lines, k + 1, m')
  {
    FileKeysSnoc(lines, k, m, m');
    CountersPrefix(FileKeys(lines[..k + 1], m'), k);
  }

  /** One more file: the fold over the files takes one more FileCounts and FileLengths. */
  lemma LoadFileStep(counts: seq<NgramMap>, lens: seq<nat>, files: seq<seq<string>>, k: nat, m: map<string, nat>, m': map<string, nat>)
    requires k < |files| && FilesInterned(files[..k], m) && Extends(m, m') && LinesInterned(files[k], m')
    ensures FilesInterned(files[..k + 1], m')
    ensures LoadCounts(counts, AllCounters(AllKeys(files[..k + 1], m'))) == FileCounts(LoadCounts(counts, AllCounters(AllKeys(files[..k], m))), Counters(FileKeys(files[k], m')))
    ensures LoadLengths(lens, AllKeys(files[..k + 1], m')) == FileLengths(LoadLengths(lens, AllKeys(files[..k], m)), FileKeys(files[k], m'))
  {
    AllKeysSnoc(files, k, m, m');
    AllCountersPrefix(AllKeys(files[..k + 1], m'), k);
  }

  lemma AllKeysSnoc(files: seq<seq<string>>, k: nat, m: map<string, nat>, m': map<string, nat>)
    requires k < |files| && FilesInterned(files[..k], m) && Extends(m, m') && LinesInterned(files[k], m')
    ensures FilesInterned(files[..k + 1], m')
    ensures AllKeys(files[..k + 1], m')[..k] == AllKeys(files[..k], m)
    ensures AllKeys(files[..k + 1], m')[k] == FileKeys(files[k], m')
  {
    forall f | 0 <= f < k ensures LinesInterned(files[f], m') && FileKeys(files[f], m') == FileKeys(files[f], m) {
      FileKeysStable(files[f], m, m');
    }
    assert files[..k + 1][..k] == files[..k];
  }
}
