/** SenTokenizer, whose source is not part of this model, as an abstract
    resettable stage: constructing it or resetting it with a reader has the
    Sen engine segment the whole text read (which may fail with an
    IOException), and each incrementToken() puts the next token of that
    segmentation into the stage's attributes. The attributes live here
    because a filter downstream shares them (Lucene's attribute source). */
module SenStage {
  import opened Common

  /** The Sen engine: configuration file and text to tokens, or the message
      of the IOException it throws. */
  datatype Sen = Sen(segment: (string, string) -> Result<seq<Token>>)

  /** What happened to a stage, in order: its shared attributes were cleared
      (by a filter's reset()), or it was reset with a new reader. */
  datatype StageEvent = AttributesCleared | Rearmed

  class SenTokenizer {
    const confFile: string
    const sen: Sen
    /** Tokens of the current text not yet emitted. */
    var pending: seq<Token>
    /** The shared term, offset, type and position-increment attributes. */
    var attrs: Token
    ghost var history: seq<StageEvent>

    constructor (confFile: string, sen: Sen, tokens: seq<Token>)
      ensures this.confFile == confFile && this.sen == sen
      ensures pending == tokens && attrs == Cleared && history == []
    {
      this.confFile := confFile;
      this.sen := sen;
      pending := tokens;
      attrs := Cleared;
      history := [];
    }

    /** new SenTokenizer(reader, confFile): segment the reader's text, or
        throw the engine's IOException. */
    static method Open(reader: seq<string>, confFile: string, sen: Sen) returns (r: Result<SenTokenizer>)
      ensures sen.segment(confFile, Concat(reader)).Err? ==> r == Err(sen.segment(confFile, Concat(reader)).error)
      ensures sen.segment(confFile, Concat(reader)).Ok? ==>
        r.Ok? && fresh(r.value) && r.value.confFile == confFile && r.value.sen == sen
        && r.value.pending == sen.segment(confFile, Concat(reader)).value
        && r.value.attrs == Cleared && r.value.history == []
    {
      match sen.segment(confFile, Concat(reader))
      case Err(e) =>
        return Err(e);
      case Ok(tokens) =>
        var t := new SenTokenizer(confFile, sen, tokens);
        return Ok(t);
    }

    /** incrementToken(): load the next token into the attributes; at the end
        report false and leave the attributes alone. */
    method IncrementToken() returns (more: bool)
      modifies this`pending, this`attrs
      ensures more <==> old(pending) != []
      ensures more ==> attrs == old(pending)[0] && pending == old(pending)[1..]
      ensures !more ==> attrs == old(attrs) && pending == []
    {
      if pending == [] {
        return false;
      }
      attrs := pending[0];
      pending := pending[1..];
      return true;
    }

    /** reset(reader): segment the new reader's text; a failure throws the
        engine's IOException and leaves the pending tokens as they were. */
    method Reset(reader: seq<string>) returns (r: Outcome)
      modifies this`pending, this`history
      ensures history == old(history) + [Rearmed]
      ensures sen.segment(confFile, Concat(reader)).Err? ==>
        r == Fail(sen.segment(confFile, Concat(reader)).error) && pending == old(pending)
      ensures sen.segment(confFile, Concat(reader)).Ok? ==>
        r == Pass && pending == sen.segment(confFile, Concat(reader)).value
    {
      history := history + [Rearmed];
      match sen.segment(confFile, Concat(reader))
      case Err(e) =>
        return Fail(e);
      case Ok(tokens) =>
        pending := tokens;
        return Pass;
    }
  }
}
