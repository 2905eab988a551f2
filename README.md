# Forest rescoring of the kbmira tuner, modelled in Dafny

This project models the forest-rescoring core of the hypergraph MIRA tuner
of Moses (`mert/`). It also proves properties of that model. The core has
five parts:

- **Token interning.** `Vocab::FindOrAdd` gives every token text a dense
  index, in first-occurrence order.
- **The arena hypergraph and its reader.**
  - `FixedAllocator` is a bump allocator over a fixed pool.
  - `Edge`, `Vertex` and `Graph` live in two such pools.
  - `ReadGraph` and `ReadEdge` read the "target ||| features" text format.
    NULL word slots are gaps, and they line up with the edge's children.
- **The reference n-gram index.** `ReferenceSet::Load` counts every
  contiguous 1..4-gram of each reference line with a window of open
  n-grams. It merges the line counts into a (clipped, unclipped) map per
  sentence: the clipped count is a max, the unclipped count a sum. It also
  keeps the shortest reference length. `NgramMatches` looks a count up.
- **BLEU statistics propagated through contexts.**
  - `HgBleuScorer::Score` walks an edge's slots.
  - For each gap it splices in the child's stored left context (at most 3
    words) and, when that context is full, the child's right context.
  - It counts only the n-grams that reach into the edge's own words, then
    adds the children's stored statistics.
  - `UpdateState` stores the winning edge's contexts, target length and
    statistics on its head vertex.
- **The Viterbi search.**
  - `Viterbi` visits the vertices in index order.
  - A vertex without incoming edges scores 0.
  - A child that has no score yet is refused.
  - Among edges with equal totals the later one wins (`>=`).
  - `GetBestTranslate` expands the last vertex's back pointers into words.

## How it is modelled

| Module (file) | Models | Form |
|---|---|---|
| `Wrappers` (wrappers.dfy) | `Option`, `Result` and the exceptions the core throws | values |
| `Vocabulary` (vocab.dfy) | `Vocab::Entry`; `Vocab`, a class whose `FindOrAdd` updates `index` and `pieces` | class |
| `Text` (text.dfy) | `TokenIter` splitting, `find_last_of`, the `" \|\|\| "` fields, `lexical_cast<unsigned long>` of counts (sign, 64-bit limit, wrap-around of `-`) | functions |
| `Hypergraph` (hypergraph.dfy) | `FixedAllocator<T>` (an `array` and a `current` counter), `Edge` and `Vertex` as values in the pools, `Graph` | classes |
| `GraphReader` (reader.dfy) | `NextLine`, `ReadEdge`, `ReadGraph` over a `LineReader` of lines, proved against the functional parse `ParseGraph` | methods with loops, functions |
| `Ngram` (ngram.dfy) | `NgramEquals`, `NgramHash`, the window of open n-grams | functions, one method |
| `References` (references.dfy) | `ReferenceSet`: `Load` and its merge and length loops, `NgramMatches` | class |
| `BleuStats` (stats.dfy) | The statistics vector, `UpdateMatches` as a function, and `Score`'s statistics | functions, lemmas |
| `Contexts` (contexts.dfy) | What the two loops of `UpdateState` build, and what a state summarises | functions, lemmas |
| `EdgeStream` (stream.dfy) | The walk of `Score`: its cursor, the word stream it feeds, and what that stream counts | methods, lemmas |
| `BleuScorer` (scorer.dfy) | `HgBleuScorer`: `UpdateMatches`, `GetTargetLength`, `Score`, `UpdateState` | class |
| `Search` (search.dfy) | `Viterbi`'s loops as methods, proved against the functions `Run`, `Pick` and `Derivation`; `GetBestTranslate` | methods, functions |
| `SearchProperties` (properties.dfy) | What the search promises: argmax with late-tie preference, the topological check, the states it leaves | lemmas |
| `Optimality` (optimality.dfy) | Derivation trees, and the back pointers' score being the best derivation's | lemmas |

Floating point is abstracted.

- The feature score of an edge (`inner_product` of its features with the
  weights) is a parameter `edgeScore: Edge -> real`.
- The smoothed, brevity-penalised BLEU value is a parameter
  `bleu: (head, stats, targetLength) -> real`. `Score` computes exactly
  the statistics and the target length it is applied to.
- The sentinel `kMinScore` is the constructor `MinScore` of the `Score`
  datatype. It lies below every finite score.
- Feature values are `real`. `StringToFloat` is a parameter
  `string -> Option<real>` that returns `None` for NaN.

The search is written twice, chosen by a `Guard` value.

- `AsWritten` is the check of mert/ForestRescore.cpp:349-350: a child must
  have a score.
- `Corrected` adds the evidently intended condition: the child must also
  come before the vertex being scored.

The imperative `Viterbi` uses the corrected guard (see "## Findings").
Both guards are modelled by the function `Search.Run`.

Where the design description and the code differ, the model follows the
code:

- `Score` inserts every n-gram that ends on one of the edge's own words,
  also in an edge with children (mert/ForestRescore.cpp:200 tests
  `!vertexState`). It does not insert only the n-grams that cross a
  boundary.
- `NgramMatches` uses `at()`, which throws for an unknown sentence; it
  does not return 0. The model returns `Err(SentenceOutOfRange)`.
- A vertex's initial state has 4 statistics slots
  (mert/ForestRescore.cpp:110). The model keeps that size.

## Model

| member | source | states |
|---|---|---|
| Vocabulary.Vocab.FindOrAdd | mert/Hypergraph.cpp:39-51 | A known token returns its entry and leaves the map unchanged. A new token gets the index `old(|index|)` and is appended to `pieces`, so indices stay dense, 0..n-1, in first-occurrence order. |
| Vocabulary.Vocab.IndexIdentifiesText | mert/Hypergraph.cpp:46-50 | Under a valid vocabulary, two handed-out entries have equal indices exactly when their texts are equal. |
| Vocabulary.IndicesStable | mert/Hypergraph.cpp:46 | Interning more tokens does not change the indices of tokens already interned. |
| Vocabulary.ExtendsTrans | mert/Hypergraph.cpp:46-50 | "Only adds entries" is transitive across many FindOrAdd calls. |
| Hypergraph.FixedAllocator.Init | mert/Hypergraph.h:45-50 | Only on a pool not yet initialised; afterwards `Capacity() == count` and `Size() == 0`. |
| Hypergraph.FixedAllocator.New | mert/Hypergraph.h:59-63 | `current` grows by one on every call, also the failing one. The result is `Ok(old Size())` when that is below the capacity, otherwise `Err(AllocatingPastEnd)`. |
| Hypergraph.FixedAllocator.Put | mert/Hypergraph.h:52-54 | Writing through `operator[]` into an allocated slot replaces that slot and nothing else. |
| Hypergraph.Graph.SetCounts | mert/Hypergraph.h:160-163 | Both pools get their capacities; `VertexSize()` and the edge count are 0. |
| Hypergraph.Graph.NewEdge | mert/Hypergraph.h:167-169 | As `New` on the edge pool. |
| Hypergraph.Graph.NewVertex | mert/Hypergraph.h:171-173 | As `New` on the vertex pool; `VertexSize()` counts allocated vertices, not the capacity. |
| Hypergraph.Graph.AddWord | mert/Hypergraph.h:112-114 | The slot is appended to that edge's words; nothing else in the pool changes. |
| Hypergraph.Graph.AddChild | mert/Hypergraph.h:116-118 | The child is appended to that edge's children; nothing else changes. |
| Hypergraph.Graph.AddFeature | mert/Hypergraph.h:120-123 | That edge's feature is set (a repeated name keeps the last value); nothing else changes. |
| Hypergraph.Graph.AddEdge | mert/Hypergraph.h:151 | The edge is appended to that vertex's incoming list; nothing else changes. |
| Hypergraph.NullCountAppend | mert/Hypergraph.h:140-142 | The number of gap slots of two slot lists put together is the sum of their counts. |
| Hypergraph.BottomUpStable | mert/Hypergraph.cpp:113-120 | Reading more edges and vertices keeps the bottom-up property of the part already read. |
| Text.Split | mert/Hypergraph.cpp:63 | Splitting at a character keeps empty tokens, yields at least one token, and no token holds the separator. |
| Text.SplitJoin | mert/Hypergraph.cpp:63 | Splitting loses nothing: the tokens joined with the separator give the line back. |
| Text.PipeFields | mert/Hypergraph.cpp:62-79 | The first field is the text before the first `" \|\|\| "`. The second starts right after it. A line without a delimiter has an empty second field. |
| Text.LastIndexOf | mert/Hypergraph.cpp:83 | `None` exactly when the character is absent; otherwise the last position that holds it. |
| Text.ParseULong | mert/Hypergraph.cpp:108-115 | `lexical_cast<unsigned long>`: a count parses exactly when it is an optional sign and a non-empty run of digits whose value is below 2^64. An unsigned or `+` count is that value; a `-` count is its negation modulo 2^64. Every result is below 2^64. |
| Text.SignedCounts | mert/Hypergraph.cpp:115 | "+3" reads as 3, "-1" as 2^64-1 and "-0" as 0; a lone sign is refused. |
| GraphReader.LineReader.ReadLine | mert/Hypergraph.cpp:102 | The next line, or `Err(EndOfFile)` past the last one, which leaves the position. |
| GraphReader.FirstNonComment | mert/Hypergraph.cpp:33-37 | The first line at or after the position that does not start with `#`: every line skipped is a comment, and the one found is not. |
| GraphReader.NextLine | mert/Hypergraph.cpp:33-37 | Returns the first non-comment line and moves past it, or returns `Err(EndOfFile)` when only comments remain. |
| GraphReader.ClassifySlot | mert/Hypergraph.cpp:65-69 | A token is a non-terminal exactly when it is bracketed: a word otherwise, with its text. A bracketed run of digits is the child with that value; any other content is `Malformed`. |
| GraphReader.GapsAlignWithChildren | mert/Hypergraph.cpp:65-76 | On a line that passes the slot check, the NULL slots are as many as the children, one gap per child in order. |
| GraphReader.CheckedChildrenInRange | mert/Hypergraph.cpp:70 | Every child of a line that passes the slot check is below `VertexSize()`. |
| GraphReader.SelfReferenceAccepted | mert/Hypergraph.cpp:70 | The first vertex's edge "[0] b" passes the check, with the head vertex 0 as its own child, because the head is allocated before its edges are read. |
| GraphReader.FeaturesAt | mert/Hypergraph.cpp:80-91 | One feature token: an empty one ends the list; no `=` gives `BadFeature`; a NaN value gives `BadWeight`; otherwise name and value are set and reading goes on. |
| GraphReader.FeaturesStopAtEmpty | mert/Hypergraph.cpp:82 | Nothing after the first empty feature token is read. |
| GraphReader.FeatureSplit | mert/Hypergraph.cpp:83-86 | The token is name, `=`, value, and the value holds no `=`, since the cut is at the last `=`. |
| GraphReader.AddSlots | mert/Hypergraph.cpp:63-77 | The error is the first bad slot's, in slot order. Without one, the edge holds the line's slots, interned, and the children of its gaps. |
| GraphReader.AddFeatures | mert/Hypergraph.cpp:80-91 | The error is the feature list's error. Without one, the edge's features are those the list gives; no other edge changes. |
| GraphReader.AddFeatureToken | mert/Hypergraph.cpp:81-90 | One iteration of the feature loop: the error of that token, with the edge untouched, or the feature set and the rest of the list still to read. |
| GraphReader.ReadEdge | mert/Hypergraph.cpp:59-93 | A full pool gives `AllocatingPastEnd`; no remaining line gives `EndOfFile`; otherwise the outcome the line describes. The new edge holds what the line says, its children are below `VertexSize()`, and earlier edges are untouched. |
| GraphReader.ReadEdgeLine | mert/Hypergraph.cpp:61-92 | The line part of ReadEdge: the next non-comment line read into the new edge, with that line's outcome. |
| GraphReader.EdgeRead | mert/Hypergraph.cpp:61-92 | The slot loop followed by the feature loop gives the outcome and the edge content that the line determines. |
| GraphReader.ErrorOf | mert/Hypergraph.cpp:99-121 | No error exactly when the parse step succeeds; otherwise the step's own error. |
| GraphReader.EdgeStep | mert/Hypergraph.cpp:118 | One edge line: `AllocatingPastEnd` when the pool is full, `EndOfFile` when only comments remain, the line's outcome on a bad line. On success the position moves past the line read, and the number of vertices is unchanged. |
| GraphReader.EdgeLines | mert/Hypergraph.cpp:117-119 | `count` edge steps, stopping at the first error. The position never moves back, and no vertex is added. |
| GraphReader.VertexLines | mert/Hypergraph.cpp:114-119 | One vertex: `EndOfFile` without a count line, `BadNumber` when `lexical_cast` refuses it, otherwise that many edge steps for a new vertex. On success exactly one vertex is added. |
| GraphReader.VerticesFrom | mert/Hypergraph.cpp:113-120 | The vertex loop, stopping at the first error. On success it has read exactly the declared number of vertices. |
| GraphReader.ParseGraph | mert/Hypergraph.cpp:99-121 | The whole file: `EndOfFile`, `BadHeader`, `EndOfFile` for a missing counts line, `BadNumber` for a bad count, then the vertex loop. On success it holds exactly the declared number of vertices. |
| GraphReader.HoldsEdgeStep | mert/Hypergraph.cpp:118 | An edge that ReadEdge fills from the next line and AddEdge attaches to the vertex is exactly the parse's next edge step; earlier edges keep their lines' content under the larger vocabulary. |
| GraphReader.EdgeStepConsistent | mert/Hypergraph.cpp:117-119 | One edge step keeps the parse consistent: edges numbered in reading order vertex after vertex, read from increasing non-comment lines, each line fitting its vertex. |
| GraphReader.EdgeLinesConsistent | mert/Hypergraph.cpp:117-119 | The edge lines of a vertex keep the parse consistent. |
| GraphReader.VertexLinesConsistent | mert/Hypergraph.cpp:114-119 | A whole vertex keeps the parse consistent. |
| GraphReader.VerticesFromConsistent | mert/Hypergraph.cpp:113-120 | The vertex loop keeps the parse consistent. |
| GraphReader.ParseGraphBody | mert/Hypergraph.cpp:104-120 | After a good header and counts line, the parse fails or succeeds exactly as the vertex loop does. |
| GraphReader.ParseGraphConsistent | mert/Hypergraph.cpp:99-121 | A file that parses gives a consistent result. |
| GraphReader.HoldsWellFormed | mert/Hypergraph.cpp:113-120 | A graph that holds a consistent parse is bottom-up, its incoming lists vertex after vertex are 0, 1, ..., n-1, and every edge has a slot. |
| GraphReader.ParsedWellFormed | mert/Hypergraph.cpp:99-121 | A graph that holds a whole file's parse is well formed in the same sense. |
| GraphReader.FittingLineEdge | mert/Hypergraph.cpp:61-77 | An edge read from a line that fits vertex v is aligned, its children are at most v, and it has at least one slot. |
| GraphReader.ReadIncomingEdge | mert/Hypergraph.cpp:118 | The outcome is EdgeStep's: its error, or the edge read from the next non-comment line, holding that line's content, appended to the vertex's incoming list, with the reader past that line. |
| GraphReader.ReadIncoming | mert/Hypergraph.cpp:117-119 | The outcome is EdgeLines's for `count` edges: the first error, or each edge holding the content of its line, in order, appended to the vertex. |
| GraphReader.Counts | mert/Hypergraph.cpp:107-110 | The vertex and edge counts are the first two tokens of the counts line. |
| GraphReader.ReadGraph | mert/Hypergraph.cpp:99-121 | The error is exactly ParseGraph's error. Without one, the capacities are the declared counts, every vertex is allocated with the incoming lists the file gives, and every edge holds the content of its line. The graph is then bottom-up, its incoming lists are 0, 1, ..., EdgeSize()-1 vertex after vertex, and every edge has a slot. |
| GraphReader.ReadCounted | mert/Hypergraph.cpp:104-120 | After the header: the counts line, SetCounts and the vertex loop give ParseGraph's outcome, as ReadGraph states it. |
| GraphReader.ReadVertices | mert/Hypergraph.cpp:113-120 | The outcome is VerticesFrom's: its error, or every declared vertex read with the incoming lists and edge contents the file gives. |
| GraphReader.ReadVertex | mert/Hypergraph.cpp:114-119 | The outcome is VertexLines's: `EndOfFile` with no count line, `BadNumber` for a bad count, an edge's error, or one new vertex whose incoming edges are the count's edge lines, each holding its line's content. |
| Ngram.KeyOf | mert/ForestRescore.h:54-55 | An n-gram's identity is the sequence of its words' indices, position by position. |
| Ngram.NgramEquals | mert/ForestRescore.h:53 | N-grams of different lengths are never equal. |
| Ngram.NgramEqualsIsKeyEquality | mert/ForestRescore.h:51-59 | Two n-grams are equal exactly when their index sequences are equal; texts and pointers play no part. |
| Ngram.EqualNgramsHashEqually | mert/ForestRescore.h:41-48 | Whatever the mixing step, equal n-grams hash equally, since the hash folds over the indices only. |
| Ngram.Extend | mert/ForestRescore.cpp:66-69 | After a word, the open n-grams are the one-word n-gram followed by each old open n-gram extended by the word. |
| Ngram.CountedOfMembers | mert/ForestRescore.cpp:197-200 | One step counts an n-gram exactly when it is open after the step and the insertion rule of the position keeps it. |
| Ngram.PushWord | mert/ForestRescore.cpp:66-71 | The push_front, append-and-insert and pop_back of one word give the window of the next step. |
| Ngram.LineWindowOpen | mert/ForestRescore.cpp:63-72 | After a line, the open n-grams are its last min(length, 3) suffixes, so at most 3 remain and a 4-gram is dropped once counted. |
| Ngram.LineWindowCounts | mert/ForestRescore.cpp:63-72 | Each n-gram of order 1..4 is counted once per occurrence in the line, and nothing else is counted. |
| References.MergeKeys | mert/ForestRescore.cpp:79-86 | The merged map has exactly the old n-grams and the visited ones. |
| References.MergeCountsLookup | mert/ForestRescore.cpp:79-86 | After merging one line, each n-gram has clipped count max(line count, old clipped) and unclipped count old unclipped + line count. It is present exactly when it was before or occurs in the line. |
| References.VisitAll | mert/ForestRescore.cpp:75-87 | The merge loop as written, over every element of the multiset: the map has exactly the old n-grams and the visited ones. |
| References.VisitAllAtVisited | mert/ForestRescore.cpp:77-86 | As written, visiting one more occurrence of g raises g's unclipped count by its full line count. |
| References.RepeatedNgramMergedTwice | mert/ForestRescore.cpp:75-87 | A line holding the same unigram twice: as written the unclipped count is 4, the square of the occurrences; the corrected merge records 2. |
| References.MergeNothing | mert/ForestRescore.cpp:75-76 | A line without n-grams leaves the map unchanged. |
| References.Resize | mert/ForestRescore.cpp:79 | `resize`: the list grows to at least n maps, old maps are kept, and new ones are empty. |
| References.ResizeLengths | mert/ForestRescore.cpp:89 | `resize`: the length list grows to at least n, old lengths are kept, and new ones are 0. |
| References.MergeLineAt | mert/ForestRescore.cpp:79-86 | Merging a line into sentence s changes only sentence s's pairs, by max and by sum. |
| References.MergeLineByKey | mert/ForestRescore.cpp:79-86 | The merge of a line acts on each sentence and n-gram independently. |
| References.FoldLinesAt | mert/ForestRescore.cpp:50-97 | After one file, line s of the file has been merged into sentence s, and later sentences are unchanged. |
| References.FoldFilesAt | mert/ForestRescore.cpp:48-99 | After all files, the clipped count is the max of the per-file counts and the unclipped count their sum. |
| References.LoadCountsAt | mert/ForestRescore.cpp:47-101 | Load's maps: for every sentence and n-gram, the max of the per-file counts (clipped) and their sum (unclipped), on top of the old maps. |
| References.MaxFoldIsMax | mert/ForestRescore.cpp:84 | The clipped count is at least the start value and every per-file count, and it equals one of them. |
| References.LoadClipBelow | mert/ForestRescore.cpp:84-85 | Loading keeps clipped ≤ unclipped in every sentence and for every n-gram. |
| References.FileLengthsAt | mert/ForestRescore.cpp:89-95 | After one file, sentence s's length follows the length rule applied to line s. |
| References.LoadLengthsAt | mert/ForestRescore.cpp:48-99 | After all files, sentence s's length is the length rule folded over its lines, file after file. |
| References.MinFoldIsMin | mert/ForestRescore.cpp:91-95 | When no line is empty, the recorded length is the minimum of all line lengths. It is positive once a line has been seen, and it equals one of the lengths. |
| References.EmptyLineResetsLength | mert/ForestRescore.cpp:91-95 | 0 means "not set", so after lines of lengths 3, 0 and 5 the recorded length is 5, not 3. |
| References.CountLine | mert/ForestRescore.cpp:59-72 | The tokenise-and-count loop: every word is interned. The length is the number of words, and the counter is the line window over the words' indices. |
| References.ReferenceSet.NgramMatches | mert/ForestRescore.cpp:103-108 | Looks up the n-gram's index sequence: `SentenceOutOfRange` for an unknown sentence; 0 for an absent n-gram; the clipped or the unclipped count, as `clip` says. |
| References.ReferenceSet.MergeSentence | mert/ForestRescore.cpp:75-87 | The corrected merge loop: the maps become the line merged into sentence s once per distinct n-gram; the lengths are unchanged. |
| References.ReferenceSet.MergeSentenceAsWritten | mert/ForestRescore.cpp:75-87 | The merge loop as written: one visit per element of the multiset. |
| References.ReferenceSet.SetSentenceLength | mert/ForestRescore.cpp:89-95 | The length list grows to sentence s and gets the length rule at s; the maps are unchanged. |
| References.ReferenceSet.LoadFile | mert/ForestRescore.cpp:48-98 | Corrected merge (see "## Findings"). One file, line l being sentence l: the maps and lengths of all its lines, merged in order. |
| References.ReferenceSet.Load | mert/ForestRescore.cpp:47-101 | Corrected merge (see "## Findings"). Every file's words are interned. The maps are the line counters folded in file and line order, and the lengths the length rule folded over the same lines. With LoadCountsAt and LoadLengthsAt this is max/sum/min per sentence. |
| BleuStats.Add | mert/ForestRescore.cpp:212 | valarray `+=`: the slot-wise sum. |
| BleuStats.MatchStatsBelow | mert/ForestRescore.cpp:112-120 | UpdateMatches keeps matched ≤ total for every order. |
| BleuStats.MatchStatsTotals | mert/ForestRescore.cpp:113-119 | UpdateMatches adds to the total slots exactly the number of n-grams in the counter. |
| BleuStats.RepeatedUnigramCountedTwice | mert/ForestRescore.cpp:113-119 | An edge counting one unigram twice: as written the unigram total becomes 4, but the edge holds 2 unigrams, which the corrected statistics give. |
| BleuStats.TwiceAsWritten | mert/ForestRescore.cpp:113-119 | As written, the unigram total for the counter {[7], [7]} is 4. |
| BleuStats.TwiceCorrected | mert/ForestRescore.cpp:113-119 | Corrected, the unigram total for {[7], [7]} is 2, the counter's size. |
| BleuStats.ChildStatsBelow | mert/ForestRescore.cpp:210-213 | Adding the children's stored statistics keeps matched ≤ total, when each child's statistics have that property. |
| BleuStats.EdgeStatsBelow | mert/ForestRescore.cpp:205-213 | Score's statistics keep matched ≤ total for every order. |
| BleuStats.EdgeStatsOwnTotals | mert/ForestRescore.cpp:145-208 | For an edge without gaps the totals grow by the number of n-grams its walk counts. That is every 1..4-gram of its non-boundary words once per occurrence, as for a reference line. |
| BleuScorer.HgBleuScorer.UpdateMatches | mert/ForestRescore.cpp:112-120 | The corrected loop, over the distinct n-grams. The result is the counter's shares added to the statistics: count to slot (order-1)*2+1, min(count, reference unclipped count) to slot (order-1)*2. An unknown sentence fails on a non-empty counter. |
| BleuScorer.HgBleuScorer.UpdateMatchesAsWritten | mert/ForestRescore.cpp:112-120 | The loop as written, once per element of the multiset, so an n-gram occurring k times adds its share k times. |
| BleuScorer.HgBleuScorer.GetTargetLength | mert/ForestRescore.cpp:122-133 | The number of non-NULL words plus the children's stored target lengths. |
| BleuScorer.HgBleuScorer.Score | mert/ForestRescore.cpp:135-213 | Uses the corrected UpdateMatches (see "## Findings"). Fails exactly when the statistics fail, with the same error. Otherwise the statistics are the edge's walk matches plus each child's stored statistics, and the value is BLEU of those and of the target length. |
| BleuScorer.HgBleuScorer.UpdateState | mert/ForestRescore.cpp:244-305 | Only the head vertex's state changes. It gets the contexts the two loops build, the target length and the statistics verbatim. |
| BleuScorer.CollectLeft | mert/ForestRescore.cpp:249-273 | The left loop: words are appended forward, each gap giving its child's left context, until 3 are held or the slots run out. |
| BleuScorer.CollectRight | mert/ForestRescore.cpp:275-300 | The right loop: words are appended backward, each gap giving its child's right context read backward, until 3 are held. Then the context is reversed. |
| Contexts.LeftAfterSummarises | mert/ForestRescore.cpp:253-273 | From an empty context, the left loop collects the first 3 words of the derivation, when each child's state summarises the child's derivation. |
| Contexts.RightAfterSummarises | mert/ForestRescore.cpp:276-300 | From an empty context, the right loop collects the last 3 words of the derivation, in forward order. |
| Contexts.NewStateSummarises | mert/ForestRescore.cpp:244-305 | When the children's states summarise their derivations, UpdateState's new state summarises the edge's derivation. It holds the first and last 3 words (so each context is at most 3 words) and the length. |
| Contexts.ChildLengthsTexts | mert/ForestRescore.cpp:128-131 | The children's stored lengths sum to the lengths of their derivations. |
| EdgeStream.CountEdge | mert/ForestRescore.cpp:145-203 | The walk of Score with its wordId, childId, contextId and the two flags. Its multiset of inserted n-grams is the one the word stream of the edge gives. |
| EdgeStream.NextWord | mert/ForestRescore.cpp:145-193 | One move of the walk: the next literal word, the start of the next child's left context, or a move inside the child. |
| EdgeStream.NextInLeft | mert/ForestRescore.cpp:159-179 | Inside a left context: its next word. At its end, the right context when the left one is full; otherwise the child is left. |
| EdgeStream.NextInRight | mert/ForestRescore.cpp:180-191 | Inside a right context: its next word, or leaving the child at its end. |
| EdgeStream.InsertWord | mert/ForestRescore.cpp:194-202 | The end of an iteration: a boundary word is skipped; any other word is pushed with the insertion rule of its position. |
| EdgeStream.CountedKeys | mert/ForestRescore.cpp:195-202 | Everything an edge's walk counts is a 1..4-gram without a boundary word. |
| EdgeStream.FeedCounts | mert/ForestRescore.cpp:195-200 | A word counts only n-grams ending with it, and only when it is not a boundary word. Nothing is counted in a right context; at left-context position p only n-grams longer than p+1 are. |
| EdgeStream.ClearForgets | mert/ForestRescore.cpp:166-172 | After the clear, what is counted does not depend on the words before it, so no n-gram spans from a left context into the right one. |
| EdgeStream.GapFreeCounts | mert/ForestRescore.cpp:145-203 | An edge without gaps counts every 1..4-gram of its non-boundary words once per occurrence, as Load does for a line. |
| Search.EdgeTotal | mert/ForestRescore.cpp:346-358 | A child the guard refuses gives `NotTopologicallySorted`. A total is only produced when every child is accepted, and it comes with 8 statistics slots. |
| Search.Pick | mert/ForestRescore.cpp:344-364 | From kMinScore, a successful pick has an incoming edge and a finite score. Under the corrected guard, that edge has only earlier children. |
| Search.VisitVertex | mert/ForestRescore.cpp:336-369 | One pass of the vertex loop keeps the loop invariant: visited vertices scored, the others untouched, and states written where the BLEU term needs them. |
| Search.RunFrom | mert/ForestRescore.cpp:336-370 | The rest of the vertex loop leaves every vertex reached. |
| Search.Run | mert/ForestRescore.cpp:333-370 | The whole vertex loop from the init back pointers and the empty states leaves every vertex visited. |
| Search.StartReached | mert/ForestRescore.cpp:333-335 | Before the loop every vertex is untouched. |
| Search.NewStateWritten | mert/ForestRescore.cpp:366-368 | UpdateState on an edge with a slot writes a state with non-empty contexts of at most 3 words. |
| Search.AddChildScores | mert/ForestRescore.cpp:346-352 | Fails with `NotTopologicallySorted` exactly when a child is refused. Otherwise the result is the feature score plus the children's scores. |
| Search.AddBleu | mert/ForestRescore.cpp:353-357 | The weighted BLEU of Score added to the base score gives the edge's total. |
| Search.ScoreEdge | mert/ForestRescore.cpp:346-358 | The body of the edge loop up to the comparison computes the edge's total. |
| Search.PickEdge | mert/ForestRescore.cpp:344-364 | The edge loop computes the pick. |
| Search.VisitInner | mert/ForestRescore.cpp:342-368 | A vertex with incoming edges gets the picked back pointer and, with the BLEU term, its state. |
| Search.VisitVertexStep | mert/ForestRescore.cpp:338-369 | One pass of the vertex loop computes VisitVertex, states included. |
| Search.VisitNext | mert/ForestRescore.cpp:337-369 | The loop rest from vertex vi is the rest from vi+1 after one pass, or that pass's error. |
| Search.VisitAll | mert/ForestRescore.cpp:336-370 | The vertex loop computes Run, states included. |
| Search.GetBestTranslate | mert/ForestRescore.cpp:315-329 | The back pointers' translation of the vertex appended to the text. |
| Search.AppendEdge | mert/ForestRescore.cpp:317-328 | The slot loop emits literal words and the children's translations in slot order, consuming the children in order. |
| Search.ChildTextsAt | mert/ForestRescore.cpp:323-326 | The i-th child's text is that child's translation. |
| Search.BestTranslation | mert/ForestRescore.cpp:373 | The last vertex's translation appended, or the vertex loop's error. |
| Search.TranslateOf | mert/ForestRescore.cpp:372-373 | A successful loop gives back pointers for every vertex that describe a translation, and Viterbi's result is the last vertex's translation. |
| Search.Viterbi | mert/ForestRescore.cpp:331-374 | Corrected topological check and corrected UpdateMatches. On a graph as the reader leaves it, the result is the last vertex's translation under the search's back pointers, or the search's error. |
| SearchProperties.EdgeTotalFrame | mert/ForestRescore.cpp:346-361 | Under the corrected guard an edge's total does not depend on the back pointer of the vertex being scored, so replacing it inside the loop is invisible to later edges. |
| SearchProperties.BestIsMax | mert/ForestRescore.cpp:359-363 | The `>=` loop from kMinScore succeeds exactly when every edge has a total. It then keeps an edge of largest total with its statistics, and every later edge scores strictly less: among ties the last wins. |
| SearchProperties.PickAsBest | mert/ForestRescore.cpp:344-364 | Under the corrected guard the edge loop is the `>=` loop over the edges' totals taken before the visit. |
| SearchProperties.PickIsBest | mert/ForestRescore.cpp:344-364 | The edge loop of an unvisited vertex succeeds exactly when every incoming edge has a total. It then keeps the last edge of largest total, with its statistics. |
| SearchProperties.RunPointsDown | mert/ForestRescore.cpp:347-350 | Under the corrected check, a successful search implies every edge points down. Without the BLEU term, every graph whose edges point down is searched successfully. |
| SearchProperties.RunKeepsStates | mert/ForestRescore.cpp:366-368 | Without the BLEU term, UpdateState is never called, so every state stays as the scorer built it. |
| SearchProperties.RunSummarises | mert/ForestRescore.cpp:366-368 | With the BLEU term, after a successful search every vertex's state holds the first and last 3 words and the length of the translation its back pointers give. |
| SearchProperties.NewStateOfPick | mert/ForestRescore.cpp:367 | The state written for the winner summarises the new back pointer's translation. |
| SearchProperties.SelfLoopAsWritten | mert/ForestRescore.cpp:347-361 | The check as written accepts a self loop. Vertex 0's back pointer then points to an edge whose child is vertex 0 itself, which describes no finite translation. |
| SearchProperties.SelfLoopCorrected | mert/ForestRescore.cpp:349-350 | The corrected check refuses the same self loop with `NotTopologicallySorted`. |
| Optimality.LeafOptimal | mert/ForestRescore.cpp:340-341 | A vertex without incoming edges scores 0, and that is the score of its only derivation. |
| Optimality.InnerOptimal | mert/ForestRescore.cpp:342-364 | Without the BLEU term, the kept edge's total is its feature score plus its children's best scores, so no derivation through any incoming edge scores more. |
| Optimality.RunFromOptimal | mert/ForestRescore.cpp:336-370 | The rest of the vertex loop keeps the back pointers optimal. |
| Optimality.RunOptimal | mert/ForestRescore.cpp:315-370 | Without the BLEU term, after a successful search every vertex's back pointers derive it with exactly its back-pointer score, and no derivation of it scores more. |
| Optimality.IncomingAligned | mert/Hypergraph.h:151 | An incoming edge of a vertex of a bottom-up graph is allocated and has one gap per child. |
| Optimality.BestTreeYield | mert/ForestRescore.cpp:315-329 | The words of the back pointers' derivation tree are exactly what GetBestTranslate expands from the back pointers. |
| Optimality.ViterbiYieldsBest | mert/ForestRescore.cpp:315-374 | Without the BLEU term, a successful Viterbi returns the text followed by the words of a derivation of the last vertex that no other derivation outscores. |

## Left out

- Floating point: the log/exp BLEU formula, the 0.01 smoothing, the
  brevity penalty, `SourceCovered` and `Length`
  (mert/ForestRescore.cpp:215-241). They are the parameter `bleu`; the
  model proves what `Score` feeds it.
- `inner_product`, the weights and `StringToFloat` are parameters too. The
  float rounding of `float bleuWeight` is not modelled.
- `kMinScore` is a separate constructor `MinScore`. A finite score equal to
  `-numeric_limits<double>::max()` cannot occur in the model, so the
  source's confusion of such a score with the sentinel is not captured.
- `util::FilePiece`, `TokenIter`, `util::Pool` and `boost::unordered_map`
  are left out: input is a sequence of lines, and maps are Dafny `map`s.
  `MurmurHashNative` is a parameter `mix` of the hash.
- File iteration order and map iteration order are left out. The merges
  are stated per key, so they do not depend on either.
- `strtoul` quirks are left out: `[]` read as child 0, a leading `+` or
  whitespace. The model accepts exactly `[digits]`.
- Hypergraph.Graph.SetCounts: a declared count too large to allocate
  (`std::bad_alloc`) is not modelled; Dafny arrays of any size allocate.
- `lexical_cast` of a counts line with fewer than two tokens dereferences
  the end of the token iterator, which yields an empty token; the model
  reads that as the `BadNumber` that an empty token gives.
- `IsBoundary` is a set of word indices in `Config` and `HgBleuScorer`.
  `HgBleuScorer`, `VertexState`, `NgramCounter`, `GetIncoming` and
  `Children()` are not part of this model's source files. From their use,
  `NgramCounter` is taken to be a multiset, `Children()` to be vertex
  indices, and the scorer's constructor to give every vertex an empty
  state.
- Viterbi's parameters `references` and `sentenceId` become `Config.refs`
  and `Config.sentenceId`. The header's four-argument declaration
  (mert/ForestRescore.h:71) is left out.
- `cerr` logging is left out.
- hgmira.cpp, HopeFearDecoder and ForestRescoreTest.cpp are not part of
  this model.
- Search.Viterbi: requires `VertexSize() > 0`. With no vertex, the source's
  `VertexSize()-1` wraps around (size_t) and reads out of bounds.
- Search.Viterbi: requires, when the BLEU weight is not zero, that every
  gap refers to a vertex with an incoming edge. The source would read that
  vertex's never-written state, which is undefined behaviour.
- Search.Viterbi: uses the corrected topological check. The check as
  written is modelled only by the function `Search.Run` with the guard
  `AsWritten`, together with the counterexample under "## Findings".
  The corrected check also refuses graphs that the source searches
  successfully. Take vertex 0 with the edges "a" (score 1) and "[0]"
  (score -100). The source keeps "a" and returns it. The model returns
  `NotTopologicallySorted`.
- Search.Viterbi: composes the corrected UpdateMatches through Score, not
  the per-occurrence loop at mert/ForestRescore.cpp:113-119. An n-gram the
  walk counts k times adds k, not k·k, to its order's total.
- References.ReferenceSet.Load: composes the corrected merge
  (MergeSentence, once per distinct n-gram), not the per-occurrence loop at
  mert/ForestRescore.cpp:77-86. A reference line "a a" gives an unclipped
  unigram count of 2 for "a" where the loop as written gives 4.
- References.ReferenceSet.LoadFile: composes the corrected merge, as Load
  does; the per-occurrence loop at mert/ForestRescore.cpp:77-86 is modelled
  only by MergeSentenceAsWritten.
- BleuScorer.HgBleuScorer.Score: composes the corrected UpdateMatches, not
  the per-occurrence loop at mert/ForestRescore.cpp:113-119, which is
  modelled only by UpdateMatchesAsWritten.
- BleuScorer.HgBleuScorer.UpdateState: takes the state vector by value,
  with no aliasing between the vertex written and the children read. Its
  requirement that no child is the vertex itself is what the corrected
  guard ensures.
- Optimality.RunOptimal: proved only for BLEU weight 0. With the BLEU term
  the total is not a sum over subderivations, and the source makes no
  optimality promise then.
- SearchProperties.RunPointsDown: the direction "edges point down implies
  success" is proved only for BLEU weight 0. With the BLEU term, success
  also depends on the reference sentence existing.
- GraphReader.ReadGraph: the lines given to the reader are the whole file.
  The `cerr` line printing the counts is left out.

## Findings

| source | as written | input that shows it | evidently intended | confidence | as-written member | corrected member |
|---|---|---|---|---|---|---|
| mert/ForestRescore.cpp:75-87 | The merge loop runs over every element of the n-gram multiset and adds `count(*ni)` on each visit. An n-gram occurring k times in a line therefore adds k·k to the unclipped count. | A reference line whose counter is {[7], [7]} (one word twice): unclipped count 4. | Each distinct n-gram is merged once, adding k: unclipped count 2. | medium (not executed; `NgramCounter` is not declared in the files modelled and is taken to be a multiset, as its `insert` and `count` use shows) | References.RepeatedNgramMergedTwice, References.VisitAllAtVisited | References.MergeCountsLookup, References.ReferenceSet.MergeSentence |
| mert/ForestRescore.cpp:113-119 | UpdateMatches also runs over every element, so a repeated n-gram adds k·k to its order's total and up to k·k to its matched count. | An edge whose walk counts {[7], [7]}: unigram total 4. | The total grows by the number of n-grams counted: 2. | medium (not executed; same assumption about `NgramCounter`) | BleuStats.TwiceAsWritten, BleuStats.RepeatedUnigramCountedTwice | BleuStats.TwiceCorrected, BleuStats.MatchStatsTotals |
| mert/ForestRescore.cpp:349-350 | The check only asks that the child has a score. After an earlier edge has scored the vertex, a later edge may have the vertex itself as a child, and with an equal total it replaces the earlier back pointer (`>=`). The reader accepts such an edge (GraphReader.SelfReferenceAccepted). | One vertex with a word edge "a" and an edge "[0]", feature scores 0 (SelfLoopEdges, SelfLoopVertices, FlatConfig): the back pointer of vertex 0 is the edge "[0]". | A child must come before the vertex it is scored for, so that the back pointers describe a finite derivation (GetBestTranslate would recurse without end). | high (not executed) | SearchProperties.SelfLoopAsWritten | SearchProperties.SelfLoopCorrected, SearchProperties.RunPointsDown |
