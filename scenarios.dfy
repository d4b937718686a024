/** Worked examples: an empty reader, the sentence 東京都に行く walked and
    then filtered, and the filter object run over the types A, B, C. */
module Scenarios {
  import opened Common
  import opened MeCab
  import opened MeCabTokenizer
  import opened SenStage
  import opened FeatureFilter

  /** MeCab's analysis of 東京都に行く as 東京都/NOUN, に/PARTICLE, 行く/VERB,
      no node carrying leading whitespace. */
  function TokyoNodes(): seq<Node>
  {
    [ Node(Bos, Some(Spelling(None, "")), "BOS/EOS"),
      Node(Normal, Some(Spelling(None, "東京都")), "NOUN"),
      Node(Normal, Some(Spelling(None, "に")), "PARTICLE"),
      Node(Normal, Some(Spelling(None, "行く")), "VERB"),
      Node(Eos, Some(Spelling(None, "")), "BOS/EOS") ]
  }

  /** The three tokens of 東京都に行く, each right after the previous one. */
  lemma {:induction false} TokyoOffsets()
    ensures Arm(["東京都", "に行く"], Tagger(s => Analysed(TokyoNodes())), DefaultMaxSize).cursor == Some(1)
    ensures Walk(TokyoNodes(), Some(1), 0)
         == WalkResult([ Token("東京都", 0, 3, "NOUN", 1),
                         Token("に", 3, 4, "PARTICLE", 1),
                         Token("行く", 4, 6, "VERB", 1) ], 6, false)
  {
    var tagger := Tagger(s => Analysed(TokyoNodes()));
    SizeCapIsStrict(["東京都", "に行く"], DefaultMaxSize);
    ArmOutcomes(["東京都", "に行く"], tagger, DefaultMaxSize);
    var nodes := TokyoNodes();
    assert Walk(nodes, Some(4), 6) == WalkResult([], 6, false);
    assert Walk(nodes, Some(3), 4).tokens == [Token("行く", 4, 6, "VERB", 1)];
    assert Walk(nodes, Some(2), 3).tokens == [Token("に", 3, 4, "PARTICLE", 1), Token("行く", 4, 6, "VERB", 1)];
  }

  /** With the stop pattern PARTICLE, に is dropped and 行く carries its
      increment: 東京都 at increment 1, then 行く at increment 2, offsets
      untouched. */
  lemma TokyoFiltered()
    ensures Filtered(StopTest((re, s) => re == s, [Pattern("PARTICLE")]), Walk(TokyoNodes(), Some(1), 0).tokens)
         == [Token("東京都", 0, 3, "NOUN", 1), Token("行く", 4, 6, "VERB", 2)]
  {
    TokyoOffsets();
    var fm := (re: string, s: string) => re == s;
    var patterns := [Pattern("PARTICLE")];
    assert fm(patterns[0].regex, "PARTICLE");
    var drop := StopTest(fm, patterns);
    assert !drop("NOUN") && drop("PARTICLE") && !drop("VERB");
  }

  /** An empty reader is accepted whatever the cap; MeCab yields just BOS and
      EOS, so the first incrementToken() finds EOS, no token is emitted and
      the final offset stays 0. */
  lemma EmptyInput(tagger: Tagger, maxSize: int, bos: Node, eos: Node)
    requires bos.stat == Bos && eos.stat == Eos
    requires tagger.analyse("") == Analysed([bos, eos])
    ensures var a := Arm([], tagger, maxSize);
      && a.outcome == Pass && a.sentence == "" && a.cursor == Some(1)
      && Walk(a.nodes, a.cursor, 0) == WalkResult([], 0, false)
  {
    ArmOutcomes([], tagger, maxSize);
  }

  /** The filter object over upstream types A, B, C, each at increment 1, with
      the single stop pattern B: the first call emits A at increment 1, the
      second emits C at increment 2, the third finds upstream exhausted. */
  method FilterWorkedExample() returns (firstMore: bool, first: Token, secondMore: bool, second: Token, third: bool)
    ensures firstMore && first == Token("a", 0, 1, "A", 1)
    ensures secondMore && second == Token("c", 2, 3, "C", 2)
    ensures !third
  {
    var ts := [Token("a", 0, 1, "A", 1), Token("b", 1, 2, "B", 1), Token("c", 2, 3, "C", 1)];
    var upstream := new SenTokenizer("sen.xml", Sen((conf, text) => Ok([])), ts);
    var filter := new FeatureRegexFilter(upstream, ["B"], (re, s) => re == s);
    var fm := (re: string, s: string) => re == s;
    var patterns := [Pattern("B")];
    assert fm(patterns[0].regex, "B");
    var drop := StopTest(fm, patterns);
    assert filter.patterns[..] == patterns;
    assert !drop("A") && drop("B") && !drop("C");
    firstMore := filter.IncrementToken();
    first := upstream.attrs;
    assert upstream.pending == ts[1..];
    secondMore := filter.IncrementToken();
    second := upstream.attrs;
    assert SumInc(ts[1..][..1]) == 1;
    third := filter.IncrementToken();
  }
}
