/** SenAnalyzer: builds the Sen tokenizer, wrapped in a FeatureRegexFilter when
    stop patterns are configured, and caches that chain so that later calls
    reset it for a new reader instead of building a new one. */
module SenAnalysis {
  import opened Common
  import opened SenStage
  import opened FeatureFilter

  /** The token stream handed to the caller: the filter over a tokenizer, or
      the bare tokenizer when there are no stop patterns. */
  datatype Stream = FilterStream(filter: FeatureRegexFilter) | TokenizerStream(tokenizer: SenTokenizer)

  /** The tokenizer at the head of a stream. */
  function Head(s: Stream): SenTokenizer
  {
    match s
    case FilterStream(f) => f.input
    case TokenizerStream(t) => t
  }

  /** The cached chain: its tokenizer and, when there are stop patterns, the
      filter over it. */
  class TokenStreamInfo {
    var tokenizer: SenTokenizer?
    var filter: FeatureRegexFilter?

    constructor ()
      ensures tokenizer == null && filter == null
    {
      tokenizer := null;
      filter := null;
    }
  }

  class SenAnalyzer {
    const confFile: string
    /** None when built without stop patterns (the Java field is null). */
    const stopPatterns: Option<seq<string>>
    const sen: Sen
    const fullMatch: (string, string) -> bool
    /** getPreviousTokenStream(): the chain cached by the last successful
        first call, null before it. */
    var previous: TokenStreamInfo?

    /** The cached chain, once there is one, has a tokenizer for this
        analyzer's configuration file and engine, has a filter
        exactly when there are stop patterns, and that filter reads from the
        cached tokenizer through the patterns compiled from the stop patterns. */
    ghost predicate Valid()
      reads this, previous
      reads if previous != null && previous.filter != null
        then {previous.filter as object, previous.filter.patterns, previous.filter.matchers} else {}
    {
      previous != null ==>
        && previous.tokenizer != null
        && previous.tokenizer.confFile == confFile && previous.tokenizer.sen == sen
        && (previous.filter != null <==> stopPatterns.Some?)
        && (previous.filter != null ==>
              && previous.filter.input == previous.tokenizer
              && previous.filter.Valid()
              && previous.filter.patterns[..] == Compiled(stopPatterns.value))
    }

    /** The stream the cached chain hands out: the filter when there is one. */
    function Current(): (s: Stream)
      requires Valid() && previous != null
      reads this, previous
      reads if previous != null && previous.filter != null
        then {previous.filter as object, previous.filter.patterns, previous.filter.matchers} else {}
      ensures Head(s) == previous.tokenizer
      ensures s.FilterStream? <==> stopPatterns.Some?
    {
      if previous.filter != null then FilterStream(previous.filter) else TokenizerStream(previous.tokenizer)
    }

    /** new SenAnalyzer(confFile) with stopPatterns None, or
        new SenAnalyzer(confFile, stopPatterns). */
    constructor (confFile: string, stopPatterns: Option<seq<string>>, sen: Sen, fullMatch: (string, string) -> bool)
      ensures Valid() && previous == null
      ensures this.confFile == confFile && this.stopPatterns == stopPatterns
      ensures this.sen == sen && this.fullMatch == fullMatch
    {
      this.confFile := confFile;
      this.stopPatterns := stopPatterns;
      this.sen := sen;
      this.fullMatch := fullMatch;
      previous := null;
    }

    /** tokenStream(fieldName, reader): a new chain for the reader, nothing
        cached; the engine's IOException is rethrown wrapped in an unchecked
        MeCabTokenizerException. */
    method TokenStream(fieldName: string, reader: seq<string>) returns (r: Result<Stream>)
      ensures sen.segment(confFile, Concat(reader)).Err? ==>
        r == Err(MeCabTokenizerException(sen.segment(confFile, Concat(reader)).error))
      ensures sen.segment(confFile, Concat(reader)).Ok? ==>
        && r.Ok? && fresh(Head(r.value))
        && Head(r.value).pending == sen.segment(confFile, Concat(reader)).value
        && Head(r.value).attrs == Cleared && Head(r.value).confFile == confFile
        && (r.value.FilterStream? <==> stopPatterns.Some?)
        && (r.value.FilterStream? ==>
              && fresh(r.value.filter) && r.value.filter.Valid()
              && r.value.filter.patterns[..] == Compiled(stopPatterns.value))
    {
      var t := SenTokenizer.Open(reader, confFile, sen);
      if t.Err? {
        return Err(MeCabTokenizerException(t.error));
      }
      if stopPatterns.Some? {
        var f := new FeatureRegexFilter(t.value, stopPatterns.value, fullMatch);
        return Ok(FilterStream(f));
      }
      return Ok(TokenizerStream(t.value));
    }

    /** reusableTokenStream(fieldName, reader). The first call builds the chain
        and caches it only if building succeeds (the IOException propagates
        unwrapped). Later calls reset the cached filter (clearing the shared
        attributes) and then reset the tokenizer with the new reader. Either
        way the filter is returned when there is one, else the tokenizer. The
        field name plays no part. */
    method ReusableTokenStream(fieldName: string, reader: seq<string>) returns (r: Result<Stream>)
      requires Valid()
      modifies this, if previous != null then {previous.tokenizer} else {}
      ensures Valid()
      ensures old(previous) == null ==>
        match sen.segment(confFile, Concat(reader))
        case Err(e) => r == Err(e) && previous == null
        case Ok(tokens) =>
          && previous != null && fresh(previous) && fresh(previous.tokenizer)
          && previous.tokenizer.pending == tokens && previous.tokenizer.attrs == Cleared
          && previous.tokenizer.history == []
          && r == Ok(Current())
      ensures old(previous) != null ==>
        && previous == old(previous)
        && previous.tokenizer == old(previous.tokenizer)
        && previous.filter == old(previous.filter)
        && previous.tokenizer.history
           == old(previous.tokenizer.history)
              + (if stopPatterns.Some? then [AttributesCleared] else []) + [Rearmed]
        && (stopPatterns.Some? ==> previous.tokenizer.attrs == Cleared)
        && (stopPatterns.None? ==> previous.tokenizer.attrs == old(previous.tokenizer.attrs))
        && match sen.segment(confFile, Concat(reader))
           case Err(e) => r == Err(e) && previous.tokenizer.pending == old(previous.tokenizer.pending)
           case Ok(tokens) => r == Ok(Current()) && previous.tokenizer.pending == tokens
    {
      var info := previous;
      if info == null {
        info := new TokenStreamInfo();
        var t := SenTokenizer.Open(reader, confFile, sen);
        if t.Err? {
          return Err(t.error);
        }
        info.tokenizer := t.value;
        if stopPatterns.Some? {
          info.filter := new FeatureRegexFilter(t.value, stopPatterns.value, fullMatch);
        }
        previous := info;
      } else {
        if info.filter != null {
          info.filter.Reset();
        }
        if info.tokenizer != null {
          var o := info.tokenizer.Reset(reader);
          if o.Fail? {
            return Err(o.error);
          }
        }
      }
      if info.filter != null {
        return Ok(FilterStream(info.filter));
      } else {
        return Ok(TokenizerStream(info.tokenizer));
      }
    }
  }

  /** Two calls in a row hand out the very same stream objects, the second
      one re-armed with the second reader's tokens. */
  method ReuseHandsOutSameStream(a: SenAnalyzer, first: seq<string>, second: seq<string>)
    returns (r1: Result<Stream>, r2: Result<Stream>)
    requires a.Valid() && a.previous == null
    modifies a
    ensures a.sen.segment(a.confFile, Concat(first)).Ok? && a.sen.segment(a.confFile, Concat(second)).Ok? ==>
      && r1.Ok? && r2.Ok? && r1.value == r2.value
      && Head(r2.value).pending == a.sen.segment(a.confFile, Concat(second)).value
  {
    r1 := a.ReusableTokenStream("", first);
    if r1.Err? {
      r2 := a.ReusableTokenStream("", second);
      return;
    }
    r2 := a.ReusableTokenStream("", second);
  }
}
