# cmecab-java token reconstruction core, in Dafny

This project models the three stateful pieces that turn Japanese text into Lucene
tokens in cmecab-java:

- `StandardMeCabTokenizer` reads the whole `Reader` under a strict character cap
  (`maxSize`). It has MeCab analyse the text into a node list that starts with a
  BOS sentinel and ends with an EOS sentinel. It then emits one token per
  `incrementToken()`, rebuilding absolute offsets from each node's
  leading-whitespace and surface lengths with a running `offset` field.
  `reset()` and `close()` destroy the native lattice at most once.
- `FeatureRegexFilter` pulls from an upstream stage. It drops every token whose
  type (the morpheme's feature string) fully matches one of its stop patterns.
  It adds the dropped tokens' position increments to the next token it lets
  through. Matchers are created lazily, one per pattern.
- `SenAnalyzer` builds a `SenTokenizer`, wrapped in a `FeatureRegexFilter` when
  stop patterns are configured. `reusableTokenStream` caches that chain in a
  `TokenStreamInfo` on the first call. Later calls reset the filter, then reset
  the tokenizer with the new reader.

The native analyser is abstract:
- a tagger is a function from a sentence to a node list or a rejection message;
- a lattice is a value with a handle number.

The Java regex engine is a full-match relation passed in as a parameter. A
`Reader` is the sequence of chunks its `read` calls deliver. `SenTokenizer`,
whose source is not part of this model, is an abstract resettable stage. Its
segmentation is a given function that may fail with an IOException. Lucene's
shared attributes (term, offsets, type, position increment) are a single
`Token` field on the upstream stage, which the filter reads and writes.
`clearAttributes()` sets the field to `Cleared`: empty term, offsets 0, type
`"word"`, increment 1. Java exceptions are `Result`/`Outcome` values.

Each object that changes state in place is a class whose methods are proved
against specification functions:
- `Read`, `Arm`, `Step` and `Walk` for the tokenizer;
- `Matches`, `Pull` and `Emitted` for the filter.

The properties are proved as lemmas about those functions:
- the strict cap;
- offset monotonicity and the final offset;
- the tokens' spans quoting the sentence;
- first-match short-circuiting;
- position preservation under filtering.

Files:
- `common.dfy`: shared values.
- `mecab.dfy`: the abstract analyser.
- `standard_mecab_tokenizer.dfy`
- `sen_tokenizer.dfy`: the abstract Sen stage.
- `feature_regex_filter.dfy`
- `sen_analyzer.dfy`
- `scenarios.dfy`: worked examples.

Notes on the code:
- The reuse cache is one slot per analyzer. The field name passed to
  `reusableTokenStream` is unused.
- Matchers are created lazily, on the first call of `match` that reaches
  their pattern.
- `skippedPositions` is a local of the filter's `incrementToken`, so no skip
  count survives from one call to the next.
- `parse` does not destroy the lattice it created when it then throws. That
  lattice stays in the field until the next `reset` or `close`.
- The size check sits inside the read loop. So an empty reader is accepted
  even when `maxSize` is zero or negative.

## Model

| member | source | states |
|---|---|---|
| MeCabTokenizer.ReadFrom | src/main/java/net/moraleboost/lucene/analysis/ja/StandardMeCabTokenizer.java:195-201 | the drain loop either yields the concatenation of all chunks, with every running total within the cap, or stops at the first chunk after which the running total exceeds the cap |
| MeCabTokenizer.SizeCapIsStrict | src/main/java/net/moraleboost/lucene/analysis/ja/StandardMeCabTokenizer.java:193-201 | draining succeeds if and only if the reader is empty or its whole text has at most `maxSize` characters, so exactly `maxSize` characters is accepted; the sentence is then the concatenation of all chunks |
| MeCabTokenizer.Drain | src/main/java/net/moraleboost/lucene/analysis/ja/StandardMeCabTokenizer.java:190-201 | the StringBuilder/total loop computes exactly the drain specification `Read` |
| MeCabTokenizer.FirstCursor | src/main/java/net/moraleboost/lucene/analysis/ja/StandardMeCabTokenizer.java:208-211 | the cursor after parse is a valid node index or null |
| MeCabTokenizer.ArmOutcomes | src/main/java/net/moraleboost/lucene/analysis/ja/StandardMeCabTokenizer.java:186-212 | parse fails with "Max size exceeded." exactly when the text is over the cap, leaving unread the chunks after the first one that crossed it; otherwise the whole text is the sentence, a rejection fails with the lattice's diagnostic, and success puts the cursor at node 1 when BOS has a successor and at null otherwise |
| MeCabTokenizer.Step | src/main/java/net/moraleboost/lucene/analysis/ja/StandardMeCabTokenizer.java:110-147 | one incrementToken: no token exactly at null or EOS; an error exactly for an undecodable node; otherwise start is offset plus the whitespace length (offset itself when the whitespace is null), end is start plus the surface length, term is the surface, type is the feature, and the cursor moves to the next node |
| MeCabTokenizer.WalkOffsets | src/main/java/net/moraleboost/lucene/analysis/ja/StandardMeCabTokenizer.java:128-136 | along successive calls every token has offset <= start <= end <= final offset, each token starts no earlier than the previous one ends, and the final offset is the initial one plus the length of all whitespace and surfaces consumed |
| MeCabTokenizer.WalkFollowsNodes | src/main/java/net/moraleboost/lucene/analysis/ja/StandardMeCabTokenizer.java:112-145 | token i comes from node cursor+i (term = surface, type = feature), the walk stops at the first EOS, the end of the list or an undecodable node, and it ends in an IOException exactly in the last case |
| MeCabTokenizer.WalkQuotesText | src/main/java/net/moraleboost/lucene/analysis/ja/StandardMeCabTokenizer.java:128-142 | in any text that spells out the walked whitespace and surfaces from the start offset, each token's [start, end) span is its term |
| MeCabTokenizer.TokensQuoteSentence | src/main/java/net/moraleboost/lucene/analysis/ja/StandardMeCabTokenizer.java:204-211 | when the nodes after BOS spell out the beginning of the sentence handed to the tagger, every token's span lies in the sentence and reads back as its term, spans do not overlap, and the final offset stays within the sentence |
| MeCabTokenizer.StandardMeCabTokenizer.Open | src/main/java/net/moraleboost/lucene/analysis/ja/StandardMeCabTokenizer.java:88-102 | construction succeeds exactly when parse does; a new tokenizer holds the parsed lattice, offset 0 and cleared attributes |
| MeCabTokenizer.StandardMeCabTokenizer.Parse | src/main/java/net/moraleboost/lucene/analysis/ja/StandardMeCabTokenizer.java:186-212 | parse creates a lattice with a new handle and leaves the state and outcome `Arm` describes; offset, attributes and destroyed handles are untouched |
| MeCabTokenizer.StandardMeCabTokenizer.IncrementToken | src/main/java/net/moraleboost/lucene/analysis/ja/StandardMeCabTokenizer.java:110-147 | at null/EOS returns false and clears the lattice with offset and cursor unchanged; an undecodable node throws after clearing the attributes but before offset or cursor change; otherwise the attributes become `Step`'s token, offset becomes its end and the cursor advances one node |
| MeCabTokenizer.StandardMeCabTokenizer.End | src/main/java/net/moraleboost/lucene/analysis/ja/StandardMeCabTokenizer.java:149-154 | end() reports the running offset as both start and end offset |
| MeCabTokenizer.StandardMeCabTokenizer.Reset | src/main/java/net/moraleboost/lucene/analysis/ja/StandardMeCabTokenizer.java:156-170 | offset becomes 0, the old lattice (if any) is destroyed once, node and lattice are dropped even when destroy throws (and then nothing else happens), otherwise the attributes are cleared and the state is what a fresh parse of the input gives |
| MeCabTokenizer.StandardMeCabTokenizer.Close | src/main/java/net/moraleboost/lucene/analysis/ja/StandardMeCabTokenizer.java:172-184 | the lattice, if any, is destroyed and node and lattice are dropped even when destroy throws; no handle is ever destroyed twice |
| SenStage.SenTokenizer.Open | src/net/moraleboost/lucene/analysis/ja/SenAnalyzer.java:85 | a new Sen stage holds the segmentation of the reader's whole text, or the engine's IOException propagates |
| SenStage.SenTokenizer.IncrementToken | src/net/moraleboost/lucene/analysis/ja/FeatureRegexFilter.java:102 | the upstream stage loads its next token into the shared attributes, or reports the end leaving them alone |
| SenStage.SenTokenizer.Reset | src/net/moraleboost/lucene/analysis/ja/SenAnalyzer.java:98 | reset(reader) re-segments the new text, keeping the old tokens when it throws |
| FeatureFilter.FeatureRegexFilter.BuildPatterns | src/net/moraleboost/lucene/analysis/ja/FeatureRegexFilter.java:59-68 | one compiled pattern per stop pattern, in order, and an equally long matcher array of nulls |
| FeatureFilter.FeatureRegexFilter.constructor | src/net/moraleboost/lucene/analysis/ja/FeatureRegexFilter.java:51-57 | the filter reads from the given stage with the patterns compiled from the stop patterns and no matcher yet |
| FeatureFilter.FirstMatch | src/net/moraleboost/lucene/analysis/ja/FeatureRegexFilter.java:81-93 | the index the pattern loop stops at: no earlier pattern fully matches, and it fully matches unless it is past the last pattern |
| FeatureFilter.MatchesIffFirstMatch | src/net/moraleboost/lucene/analysis/ja/FeatureRegexFilter.java:77-96 | some pattern fully matches the feature if and only if the loop stops inside the pattern list; with no patterns nothing matches |
| FeatureFilter.FeatureRegexFilter.Match | src/net/moraleboost/lucene/analysis/ja/FeatureRegexFilter.java:77-96 | match() is true exactly when some pattern fully matches the feature; matchers up to the first matching pattern (all, when none matches) are created or reset to the feature, and the ones after it are untouched |
| FeatureFilter.Pull | src/net/moraleboost/lucene/analysis/ja/FeatureRegexFilter.java:98-112 | one incrementToken: nothing is emitted exactly when every remaining upstream token matches; otherwise the first non-matching token is emitted unchanged except that its increment gains the sum of the increments of the tokens dropped before it |
| FeatureFilter.FeatureRegexFilter.IncrementToken | src/net/moraleboost/lucene/analysis/ja/FeatureRegexFilter.java:98-112 | the skip-accumulating loop returns true exactly when `Pull` finds a survivor, leaving it in the attributes and the tokens after it upstream; otherwise it returns false with upstream exhausted and the skip discarded |
| FeatureFilter.EmittedIsRepeatedPull | src/net/moraleboost/lucene/analysis/ja/FeatureRegexFilter.java:101-109 | the filtered stream is the first call's survivor followed by the stream after it, each later call starting again from a skip of zero |
| FeatureFilter.FilterKeepsPositions | src/net/moraleboost/lucene/analysis/ja/FeatureRegexFilter.java:101-109 | every emitted token sits at the same absolute position it had in the unfiltered stream |
| FeatureFilter.FilterKeepsUnmatched | src/net/moraleboost/lucene/analysis/ja/FeatureRegexFilter.java:103-106 | the filter emits exactly the non-matching tokens, in order, changing nothing but their position increments (never the type) |
| FeatureFilter.FeatureRegexFilter.Reset | src/net/moraleboost/lucene/analysis/ja/FeatureRegexFilter.java:114-118 | reset() clears the shared attributes and leaves the patterns alone |
| SenAnalysis.SenAnalyzer.constructor | src/net/moraleboost/lucene/analysis/ja/SenAnalyzer.java:41-58 | an analyzer with the configuration file, optional stop patterns and an empty cache |
| SenAnalysis.SenAnalyzer.Current | src/net/moraleboost/lucene/analysis/ja/SenAnalyzer.java:102-106 | the cached chain hands out the filter exactly when there are stop patterns, and its head is the cached tokenizer |
| SenAnalysis.SenAnalyzer.TokenStream | src/net/moraleboost/lucene/analysis/ja/SenAnalyzer.java:60-74 | a new tokenizer for the reader, wrapped in a new filter exactly when stop patterns are set; an IOException surfaces as a MeCabTokenizerException around it |
| SenAnalysis.SenAnalyzer.ReusableTokenStream | src/net/moraleboost/lucene/analysis/ja/SenAnalyzer.java:76-107 | the first call builds the tokenizer and a filter exactly when stop patterns are set and caches them only on success; later calls create nothing, reset the filter before the tokenizer (attributes cleared, then re-armed), and return the filter if any, else the tokenizer |
| SenAnalysis.ReuseHandsOutSameStream | src/net/moraleboost/lucene/analysis/ja/SenAnalyzer.java:80-106 | two successful calls in a row return the very same stream, holding the second reader's tokens |
| Scenarios.TokyoOffsets | src/main/java/net/moraleboost/lucene/analysis/ja/StandardMeCabTokenizer.java:128-145 | 東京都/に/行く with no leading whitespace gives tokens at 0-3, 3-4, 4-6 and final offset 6 |
| Scenarios.TokyoFiltered | src/net/moraleboost/lucene/analysis/ja/FeatureRegexFilter.java:101-109 | with stop pattern PARTICLE the stream becomes 東京都 at increment 1 and 行く at increment 2, offsets unchanged |
| Scenarios.EmptyInput | src/main/java/net/moraleboost/lucene/analysis/ja/StandardMeCabTokenizer.java:195-211 | an empty reader is accepted under any cap, and with only BOS and EOS no token is emitted and the final offset is 0 |
| Scenarios.FilterWorkedExample | src/net/moraleboost/lucene/analysis/ja/FeatureRegexFilter.java:98-112 | over types A, B, C at increment 1 with stop pattern B, the first call returns true with A at increment 1, the second returns true with C at increment 2, and the third returns false |

## Left out

- One Dafny `char` stands for one Java `char` (a UTF-16 code unit), so lengths, offsets and the `maxSize` cap are counted in UTF-16 units. Characters outside the Basic Multilingual Plane (such as 𠮷), which Java stores as two surrogate units but a Dafny `char` holds as one, are not covered: for text containing them the model's offsets and cap count one where the Java code counts two.
- Java `int` overflow of `offset`, `start`, `end` and the position increments is not modelled; integers are unbounded.
- `Pattern.compile` errors (PatternSyntaxException) are not modelled: a pattern is its source string and full matching is a given relation.
- The native MeCab segmentation, `Lattice`/`Node` JNI calls, charset conversion and `StandardTagger` are not part of this model; the tagger is a given function from sentence to node list or rejection.
- `correctOffset` is the identity.
- `Reader` I/O is modelled as the chunk sequence its reads deliver; the read buffer (8192 chars) only bounds chunk length and plays no other part.
- `TokenFilter.reset()` (the `super.reset()` call in the filter's `reset`) and `Tokenizer.close()` (the `super.close()` call that closes the reader) are framework plumbing and are not modelled.
- `SenTokenizer` is not part of this model beyond its constructor, `incrementToken` and `reset(Reader)` as an abstract stage.
- The cache slot of `Analyzer.getPreviousTokenStream` is thread-local in Lucene; the model has a single thread and one slot per analyzer.
- `lattice.clear()` and `destroy()` are recorded (a `cleared` flag, a log of destroyed handles) rather than freeing memory; whether a native `destroy()` throws is a parameter.
- `FeatureFilter.FeatureRegexFilter.IncrementToken`: the state of the matcher cache afterwards is stated only as well-formed (one matcher slot per pattern, each created matcher bound to its pattern), not which slots were touched.
- The Solr factory `LocalProtobufMeCabTokenizerFactory` is not part of this model.
