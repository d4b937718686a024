/** StandardMeCabTokenizer: drains a reader up to a character cap, has MeCab
    analyse the text once, then walks the node list one token per call,
    rebuilding absolute offsets from each node's leading-whitespace and
    surface lengths. Offset correction (correctOffset) is the identity. */
module MeCabTokenizer {
  import opened Common
  import opened MeCab

  const DefaultMaxSize := 10 * 1024 * 1024

  const MaxSizeExceeded := "Max size exceeded."
  const NoSurface := "Can't get leading space and surface from node."

  // ---------------------------------------------------------------------------
  // Draining the reader

  /** Outcome of the drain loop of parse(): the whole text, or the number of
      chunks read when the running total first went over the cap. */
  datatype Drained = Drained(sentence: string) | TooLarge(consumed: nat)

  /** Chunk `k` is the first one after which the running total exceeds `maxSize`. */
  ghost predicate FirstOverflow(chunks: seq<string>, maxSize: int, k: nat)
  {
    0 < k <= |chunks|
    && |Concat(chunks[..k])| > maxSize
    && forall j :: 0 < j < k ==> |Concat(chunks[..j])| <= maxSize
  }

  /** The drain loop from chunk `i` on, the first `i` chunks having stayed
      within the cap. */
  function ReadFrom(chunks: seq<string>, maxSize: int, i: nat): (r: Drained)
    requires i <= |chunks|
    requires forall j :: 0 < j <= i ==> |Concat(chunks[..j])| <= maxSize
    ensures r.Drained? ==> r.sentence == Concat(chunks)
    ensures r.Drained? ==> forall j :: 0 < j <= |chunks| ==> |Concat(chunks[..j])| <= maxSize
    ensures r.TooLarge? ==> i < r.consumed && FirstOverflow(chunks, maxSize, r.consumed)
    decreases |chunks| - i
  {
    if i == |chunks| then
      assert chunks[..i] == chunks;
      Drained(Concat(chunks))
    else if |Concat(chunks[..i + 1])| > maxSize then
      TooLarge(i + 1)
    else
      ReadFrom(chunks, maxSize, i + 1)
  }

  /** The whole drain loop of parse(). */
  function Read(chunks: seq<string>, maxSize: int): Drained
  {
    ReadFrom(chunks, maxSize, 0)
  }

  /** The cap is strict: draining fails exactly when at least one chunk was
      read and the text is longer than `maxSize`; text of exactly `maxSize`
      characters is accepted, and so is an empty reader whatever the cap. */
  lemma SizeCapIsStrict(chunks: seq<string>, maxSize: int)
    ensures Read(chunks, maxSize).Drained? <==> chunks == [] || |Concat(chunks)| <= maxSize
    ensures Read(chunks, maxSize).Drained? ==> Read(chunks, maxSize).sentence == Concat(chunks)
    ensures Read(chunks, maxSize).TooLarge? ==> FirstOverflow(chunks, maxSize, Read(chunks, maxSize).consumed)
  {
    var r := Read(chunks, maxSize);
    if r.TooLarge? {
      ConcatPrefixShorter(chunks, r.consumed);
    } else if chunks != [] {
      assert chunks[..|chunks|] == chunks;
    }
  }

  /** The `while` loop of parse(): append each chunk to the
      builder, add its length to the total, stop as soon as the total exceeds
      the cap. */
  method Drain(chunks: seq<string>, maxSize: int) returns (r: Drained)
    ensures r == Read(chunks, maxSize)
  {
    var builder: string := [];
    var total := 0;
    var i := 0;
    while i < |chunks|
      invariant 0 <= i <= |chunks|
      invariant builder == Concat(chunks[..i]) && total == |builder|
      invariant forall j :: 0 < j <= i ==> |Concat(chunks[..j])| <= maxSize
      invariant ReadFrom(chunks, maxSize, i) == Read(chunks, maxSize)
    {
      ConcatSnoc(chunks, i);
      builder := builder + chunks[i];
      total := total + |chunks[i]|;
      i := i + 1;
      if total > maxSize {
        return TooLarge(i);
      }
    }
    assert chunks[..i] == chunks;
    return Drained(builder);
  }

  // ---------------------------------------------------------------------------
  // Arming: parse()

  /** What parse() leaves behind: the chunks still unread, the sentence and
      node list held by the new lattice, the cursor, and the exception if any. */
  datatype Armed = Armed(unread: seq<string>, sentence: string, nodes: seq<Node>, cursor: Option<nat>, outcome: Outcome)

  /** The cursor parse() sets on success: the successor of the BOS node, or
      null when there is no BOS node. */
  function FirstCursor(nodes: seq<Node>): (c: Option<nat>)
    ensures c.Some? ==> c.value < |nodes|
  {
    match BosNode(nodes)
    case None => None
    case Some(b) => Successor(nodes, b)
  }

  /** parse(): drain the reader under the cap, set the sentence on the
      lattice, have the tagger parse it, and position the cursor. */
  function Arm(chunks: seq<string>, tagger: Tagger, maxSize: int): (a: Armed)
    ensures a.cursor.Some? ==> a.cursor.value < |a.nodes|
  {
    match Read(chunks, maxSize)
    case TooLarge(k) =>
      Armed(chunks[k..], [], [], None, Fail(IOException(MaxSizeExceeded)))
    case Drained(s) =>
      match tagger.analyse(s)
      case Rejected(what) => Armed([], s, [], None, Fail(IOException(what)))
      case Analysed(nodes) => Armed([], s, nodes, FirstCursor(nodes), Pass)
  }

  /** parse() fails with "Max size exceeded." exactly when the text read is
      over the cap, and then leaves unread the chunks after the first one
      that crossed it; otherwise the whole reader is handed to the tagger as
      one sentence, and the result is the tagger's diagnostic on rejection or
      a cursor just after BOS on success. */
  lemma ArmOutcomes(chunks: seq<string>, tagger: Tagger, maxSize: int)
    ensures var a := Arm(chunks, tagger, maxSize);
      chunks != [] && |Concat(chunks)| > maxSize ==>
        a.outcome == Fail(IOException(MaxSizeExceeded)) && a.sentence == [] && a.cursor == None
        && exists k: nat :: FirstOverflow(chunks, maxSize, k) && a.unread == chunks[k..]
    ensures var a := Arm(chunks, tagger, maxSize);
      (chunks == [] || |Concat(chunks)| <= maxSize) ==>
        a.unread == [] && a.sentence == Concat(chunks)
        && match tagger.analyse(Concat(chunks))
           case Rejected(what) => a.outcome == Fail(IOException(what)) && a.cursor == None
           case Analysed(nodes) =>
             a.outcome == Pass && a.nodes == nodes
             && (|nodes| >= 2 ==> a.cursor == Some(1))
             && (|nodes| < 2 ==> a.cursor == None)
  {
    SizeCapIsStrict(chunks, maxSize);
  }

  // ---------------------------------------------------------------------------
  // Walking the node list: incrementToken()

  /** One call of incrementToken() on the node list, from the given cursor and
      running offset. */
  datatype StepOutcome = Exhausted | Undecodable | Emitted(token: Token, next: Option<nat>)

  function Step(nodes: seq<Node>, cursor: Option<nat>, offset: int): (r: StepOutcome)
    requires cursor.Some? ==> cursor.value < |nodes|
    ensures r.Exhausted? <==> cursor.None? || nodes[cursor.value].stat == Eos
    ensures r.Undecodable? <==> cursor.Some? && nodes[cursor.value].stat != Eos && nodes[cursor.value].spelling.None?
    ensures r.Emitted? ==>
      var n := nodes[cursor.value];
      var sp := n.spelling.value;
      && (sp.leadingSpace.Some? ==> r.token.startOffset == offset + |sp.leadingSpace.value|)
      && (sp.leadingSpace.None? ==> r.token.startOffset == offset)
      && r.token.endOffset == r.token.startOffset + |sp.surface|
      && r.token.term == sp.surface
      && r.token.tokenType == n.feature
      && r.token.posInc == 1
      && r.next == Successor(nodes, cursor.value)
  {
    if cursor.None? || nodes[cursor.value].stat == Eos then Exhausted
    else
      var n := nodes[cursor.value];
      match n.spelling
      case None => Undecodable
      case Some(sp) =>
        var start := offset + |LeadText(sp)|;
        var end := start + |sp.surface|;
        Emitted(Token(sp.surface, start, end, n.feature, 1), Successor(nodes, cursor.value))
  }

  /** The text a walk from `cursor` passes over: each node's leading
      whitespace and surface, up to EOS, the end of the list, or a node whose
      spelling cannot be decoded. */
  function Spelled(nodes: seq<Node>, cursor: Option<nat>): string
    requires cursor.Some? ==> cursor.value < |nodes|
    decreases if cursor.None? then 0 else |nodes| - cursor.value
  {
    if cursor.None? || nodes[cursor.value].stat == Eos then []
    else
      match nodes[cursor.value].spelling
      case None => []
      case Some(sp) => LeadText(sp) + sp.surface + Spelled(nodes, Successor(nodes, cursor.value))
  }

  /** The tokens successive incrementToken() calls emit from a cursor and a
      running offset, the offset after the last one, and whether the walk
      stopped at an undecodable node (an IOException) rather than at the end. */
  datatype WalkResult = WalkResult(tokens: seq<Token>, finalOffset: int, failed: bool)

  function Walk(nodes: seq<Node>, cursor: Option<nat>, offset: int): WalkResult
    requires cursor.Some? ==> cursor.value < |nodes|
    decreases if cursor.None? then 0 else |nodes| - cursor.value
  {
    match Step(nodes, cursor, offset)
    case Exhausted => WalkResult([], offset, false)
    case Undecodable => WalkResult([], offset, true)
    case Emitted(t, next) =>
      var rest := Walk(nodes, next, t.endOffset);
      rest.(tokens := [t] + rest.tokens)
  }

  /** Offsets along a walk: every token's span is well formed and starts no
      earlier than the offset the walk began at; a later token never starts
      before an earlier one ends; and the final offset is the starting one
      plus the length of all whitespace and surfaces passed over. */
  lemma {:induction false} WalkOffsets(nodes: seq<Node>, cursor: Option<nat>, offset: int)
    requires cursor.Some? ==> cursor.value < |nodes|
    ensures var w := Walk(nodes, cursor, offset);
      w.finalOffset == offset + |Spelled(nodes, cursor)|
    ensures var w := Walk(nodes, cursor, offset);
      forall i :: 0 <= i < |w.tokens| ==>
        offset <= w.tokens[i].startOffset <= w.tokens[i].endOffset <= w.finalOffset
    ensures var w := Walk(nodes, cursor, offset);
      forall i, j :: 0 <= i < j < |w.tokens| ==> w.tokens[i].endOffset <= w.tokens[j].startOffset
    decreases if cursor.None? then 0 else |nodes| - cursor.value
  {
    match Step(nodes, cursor, offset)
    case Exhausted =>
    case Undecodable =>
    case Emitted(t, next) =>
      WalkOffsets(nodes, next, t.endOffset);
      var rest := Walk(nodes, next, t.endOffset);
      var w := Walk(nodes, cursor, offset);
      assert w.tokens == [t] + rest.tokens;
      forall i | 0 < i < |w.tokens|
        ensures w.tokens[i] == rest.tokens[i - 1]
      {
      }
  }

  /** The tokens were read from consecutive nodes starting at c: each from a
      node that is neither EOS nor undecodable, with the node's surface as
      its term and the node's feature as its type. */
  ghost predicate ReadsNodes(nodes: seq<Node>, c: nat, tokens: seq<Token>)
    decreases |tokens|
  {
    && c + |tokens| <= |nodes|
    && (tokens != [] ==>
          && nodes[c].stat != Eos && nodes[c].spelling.Some?
          && tokens[0].term == nodes[c].spelling.value.surface
          && tokens[0].tokenType == nodes[c].feature
          && ReadsNodes(nodes, c + 1, tokens[1..]))
  }

  /** Token i of tokens read from c on was read from node c+i. */
  lemma {:induction false} ReadsNodesAt(nodes: seq<Node>, c: nat, tokens: seq<Token>, i: nat)
    requires ReadsNodes(nodes, c, tokens) && i < |tokens|
    ensures c + i < |nodes| && nodes[c + i].stat != Eos && nodes[c + i].spelling.Some?
    ensures tokens[i].term == nodes[c + i].spelling.value.surface
    ensures tokens[i].tokenType == nodes[c + i].feature
    decreases i
  {
    if i > 0 {
      ReadsNodesAt(nodes, c + 1, tokens[1..], i - 1);
      assert tokens[1..][i - 1] == tokens[i];
    }
  }

  /** Which nodes a walk reads: token i is node cursor+i, with the node's
      surface as its term and its feature as its type; the walk stops at the
      first EOS node, the end of the list, or an undecodable node, and it
      reports failure exactly in the last case. */
  lemma {:induction false} WalkFollowsNodes(nodes: seq<Node>, c: nat, offset: int)
    requires c < |nodes|
    ensures ReadsNodes(nodes, c, Walk(nodes, Some(c), offset).tokens)
    ensures var w := Walk(nodes, Some(c), offset);
      var e := c + |w.tokens|;
      (e == |nodes| || nodes[e].stat == Eos || nodes[e].spelling.None?)
      && (w.failed <==> e < |nodes| && nodes[e].stat != Eos && nodes[e].spelling.None?)
    decreases |nodes| - c
  {
    var w := Walk(nodes, Some(c), offset);
    match Step(nodes, Some(c), offset)
    case Exhausted =>
    case Undecodable =>
    case Emitted(t, next) =>
      if next.Some? {
        WalkFollowsNodes(nodes, c + 1, t.endOffset);
        var rest := Walk(nodes, next, t.endOffset);
        assert w.tokens == [t] + rest.tokens && w.failed == rest.failed;
        assert w.tokens[1..] == rest.tokens;
      } else {
        assert Walk(nodes, next, t.endOffset) == WalkResult([], t.endOffset, false);
        assert w.tokens == [t] && !w.failed;
      }
  }

  /** Every token lies inside `text`, and its span there is its term. */
  ghost predicate QuotesText(tokens: seq<Token>, text: string)
  {
    forall i :: 0 <= i < |tokens| ==>
      0 <= tokens[i].startOffset <= tokens[i].endOffset <= |text|
      && text[tokens[i].startOffset..tokens[i].endOffset] == tokens[i].term
  }

  /** Each token's span, taken in text whose characters from `offset` on are
      what the walk passes over, is exactly the token's term. */
  lemma {:induction false} WalkQuotesText(nodes: seq<Node>, cursor: Option<nat>, offset: nat, text: string)
    requires cursor.Some? ==> cursor.value < |nodes|
    requires offset + |Spelled(nodes, cursor)| <= |text|
    requires text[offset..offset + |Spelled(nodes, cursor)|] == Spelled(nodes, cursor)
    ensures QuotesText(Walk(nodes, cursor, offset).tokens, text)
    decreases if cursor.None? then 0 else |nodes| - cursor.value
  {
    match Step(nodes, cursor, offset)
    case Exhausted =>
    case Undecodable =>
    case Emitted(t, next) =>
      var sp := nodes[cursor.value].spelling.value;
      var ws := LeadText(sp);
      var s := Spelled(nodes, cursor);
      var s' := Spelled(nodes, next);
      assert s == ws + sp.surface + s';
      var stop := offset + |ws| + |sp.surface|;
      SliceWithin(text, offset, s, |ws|, |ws| + |sp.surface|);
      SliceWithin(text, offset, s, |ws| + |sp.surface|, |s|);
      assert s[|ws|..|ws| + |sp.surface|] == sp.surface;
      assert s[|ws| + |sp.surface|..|s|] == s';
      WalkQuotesText(nodes, next, stop, text);
      var rest := Walk(nodes, next, stop);
      var w := Walk(nodes, cursor, offset);
      assert w.tokens == [t] + rest.tokens;
      forall i | 0 <= i < |w.tokens|
        ensures 0 <= w.tokens[i].startOffset <= w.tokens[i].endOffset <= |text|
        ensures text[w.tokens[i].startOffset..w.tokens[i].endOffset] == w.tokens[i].term
      {
        if i > 0 {
          assert w.tokens[i] == rest.tokens[i - 1];
        }
      }
  }

  /** A piece of text found at `from` can be sliced in either. */
  lemma SliceWithin(text: string, from: nat, piece: string, a: nat, b: nat)
    requires from + |piece| <= |text| && text[from..from + |piece|] == piece
    requires a <= b <= |piece|
    ensures text[from + a..from + b] == piece[a..b]
  {
    forall k | 0 <= k < b - a
      ensures text[from + a..from + b][k] == piece[a..b][k]
    {
      assert text[from..from + |piece|][a + k] == text[from + a + k];
    }
  }

  /** Round trip for a whole document: when the tagger's nodes after BOS spell
      out the beginning of the sentence, every emitted token lies inside the
      sentence, its span in the sentence is its term, the spans do not overlap,
      and the final offset does not pass the end of the sentence. */
  lemma TokensQuoteSentence(chunks: seq<string>, tagger: Tagger, maxSize: int)
    requires Arm(chunks, tagger, maxSize).outcome == Pass
    requires var a := Arm(chunks, tagger, maxSize);
      Spelled(a.nodes, a.cursor) <= a.sentence
    ensures var a := Arm(chunks, tagger, maxSize);
      var w := Walk(a.nodes, a.cursor, 0);
      w.finalOffset <= |a.sentence|
      && QuotesText(w.tokens, a.sentence)
      && (forall i, j :: 0 <= i < j < |w.tokens| ==> w.tokens[i].endOffset <= w.tokens[j].startOffset)
  {
    var a := Arm(chunks, tagger, maxSize);
    WalkOffsets(a.nodes, a.cursor, 0);
    WalkQuotesText(a.nodes, a.cursor, 0, a.sentence);
  }

  // ---------------------------------------------------------------------------
  // The tokenizer object

  class StandardMeCabTokenizer {
    const maxSize: int
    const tagger: Tagger
    /** The reader, as the chunks it has not delivered yet. */
    var input: seq<string>
    var lattice: Option<Lattice>
    /** The cursor: index of the current node in the lattice's node list. */
    var node: Option<nat>
    var offset: int
    /** The term, offset and type attributes (and the position increment that
        clearAttributes() resets). */
    var attrs: Token
    /** Number of lattices created so far; handles are 0, 1, 2, ... */
    var issued: nat
    /** Handles destroy() was called on, in order. */
    var destroyed: seq<nat>

    ghost predicate Valid()
      reads this
    {
      && (node.Some? ==> lattice.Some? && node.value < |lattice.value.nodes|)
      && (lattice.Some? ==> lattice.value.handle < issued && lattice.value.handle !in destroyed)
      && (forall i :: 0 <= i < |destroyed| ==> destroyed[i] < issued)
      && (forall i, j :: 0 <= i < j < |destroyed| ==> destroyed[i] != destroyed[j])
    }

    /** The tokenizer holds a fresh, uncleared lattice in the state `a` describes. */
    ghost predicate ArmedAs(a: Armed)
      reads this
    {
      && input == a.unread
      && lattice.Some?
      && lattice.value.sentence == a.sentence
      && lattice.value.nodes == a.nodes
      && !lattice.value.cleared
      && node == a.cursor
    }

    /** The fields before parse() runs. */
    constructor Init(input: seq<string>, tagger: Tagger, maxSize: int)
      ensures Valid()
      ensures this.input == input && this.tagger == tagger && this.maxSize == maxSize
      ensures lattice.None? && node.None? && offset == 0 && attrs == Cleared
      ensures issued == 0 && destroyed == []
    {
      this.maxSize := maxSize;
      this.tagger := tagger;
      this.input := input;
      lattice := None;
      node := None;
      offset := 0;
      attrs := Cleared;
      issued := 0;
      destroyed := [];
    }

    /** The public constructor: store the fields, then parse(); its
        IOException leaves no tokenizer behind. */
    static method Open(input: seq<string>, tagger: Tagger, maxSize: int) returns (r: Result<StandardMeCabTokenizer>)
      ensures r.Ok? <==> Arm(input, tagger, maxSize).outcome == Pass
      ensures r.Err? ==> r == Err(Arm(input, tagger, maxSize).outcome.error)
      ensures r.Ok? ==>
        var t := r.value;
        fresh(t) && t.Valid() && t.ArmedAs(Arm(input, tagger, maxSize))
        && t.tagger == tagger && t.maxSize == maxSize
        && t.offset == 0 && t.attrs == Cleared
    {
      var t := new StandardMeCabTokenizer.Init(input, tagger, maxSize);
      var o := t.Parse();
      if o.Fail? {
        return Err(o.error);
      }
      return Ok(t);
    }

    /** parse(): create a lattice, drain the reader under the cap, hand the
        text to the tagger and put the cursor after BOS. On failure the new
        lattice stays in place (it is not destroyed). */
    method Parse() returns (r: Outcome)
      requires Valid() && lattice.None? && node.None?
      modifies this
      ensures Valid()
      ensures ArmedAs(Arm(old(input), tagger, maxSize)) && r == Arm(old(input), tagger, maxSize).outcome
      ensures lattice.value.handle == old(issued) && issued == old(issued) + 1
      ensures destroyed == old(destroyed) && offset == old(offset) && attrs == old(attrs)
    {
      lattice := Some(Lattice(issued, [], [], false));
      issued := issued + 1;
      var d := Drain(input, maxSize);
      match d
      case TooLarge(k) =>
        input := input[k..];
        return Fail(IOException(MaxSizeExceeded));
      case Drained(sentence) =>
        input := [];
        lattice := Some(lattice.value.(sentence := sentence));
        match tagger.analyse(sentence)
        case Rejected(what) =>
          return Fail(IOException(what));
        case Analysed(nodes) =>
          lattice := Some(lattice.value.(nodes := nodes));
          var bos := BosNode(nodes);
          if bos.Some? {
            node := Successor(nodes, bos.value);
          }
          return Pass;
    }

    /** incrementToken(): at the end of the list clear the lattice and report
        no token; otherwise decode the node, emit its surface at the offset
        rebuilt from the running offset, and advance the cursor by one node.
        Calling it with no lattice (after close()) would dereference null, so
        that is excluded. */
    method IncrementToken() returns (r: Result<bool>)
      requires Valid() && lattice.Some?
      modifies this
      ensures Valid()
      ensures input == old(input) && issued == old(issued) && destroyed == old(destroyed)
      ensures match Step(old(lattice).value.nodes, old(node), old(offset))
        case Exhausted =>
          r == Ok(false) && lattice == Some(old(lattice).value.(cleared := true))
          && node == old(node) && offset == old(offset) && attrs == old(attrs)
        case Undecodable =>
          r == Err(IOException(NoSurface)) && lattice == old(lattice)
          && node == old(node) && offset == old(offset) && attrs == Cleared
        case Emitted(t, next) =>
          r == Ok(true) && lattice == old(lattice)
          && attrs == t && offset == t.endOffset && node == next
    {
      var nodes := lattice.value.nodes;
      if node.None? || nodes[node.value].stat == Eos {
        lattice := Some(lattice.value.(cleared := true));
        return Ok(false);
      }
      attrs := Cleared;
      var n := nodes[node.value];
      if n.spelling.None? {
        return Err(IOException(NoSurface));
      }
      var tokenString := n.spelling.value.surface;
      var blankString := n.spelling.value.leadingSpace;
      var start, end;
      if blankString.Some? {
        start := offset + |blankString.value|;
        end := start + |tokenString|;
      } else {
        start := offset;
        end := start + |tokenString|;
      }
      offset := end;
      attrs := attrs.(term := tokenString, startOffset := start, endOffset := end, tokenType := n.feature);
      node := Successor(nodes, node.value);
      return Ok(true);
    }

    /** end(): report the final offset as both start and end offset. */
    method End()
      modifies this`attrs
      ensures attrs == old(attrs).(startOffset := offset, endOffset := offset)
    {
      attrs := attrs.(startOffset := offset, endOffset := offset);
    }

    /** reset(): zero the offset, destroy the lattice if there is one and drop
        the node and lattice references even if destroy throws, then clear the
        attributes and parse the reader again. Afterwards the tokenizer is in
        the state a freshly opened one on the same reader would be in. */
    method Reset(destroyFails: bool) returns (r: Outcome)
      requires Valid()
      modifies this
      ensures Valid() && offset == 0
      ensures destroyed == old(destroyed) + (if old(lattice).Some? then [old(lattice).value.handle] else [])
      ensures old(lattice).Some? && destroyFails ==>
        r == Fail(DestroyFailed) && lattice.None? && node.None?
        && input == old(input) && attrs == old(attrs) && issued == old(issued)
      ensures !(old(lattice).Some? && destroyFails) ==>
        ArmedAs(Arm(old(input), tagger, maxSize)) && r == Arm(old(input), tagger, maxSize).outcome
        && attrs == Cleared && issued == old(issued) + 1 && lattice.value.handle == old(issued)
    {
      offset := 0;
      var failed := false;
      if lattice.Some? {
        destroyed := destroyed + [lattice.value.handle];
        failed := destroyFails;
      }
      node := None;
      lattice := None;
      if failed {
        return Fail(DestroyFailed);
      }
      attrs := Cleared;
      r := Parse();
    }

    /** close(): destroy the lattice if there is one, and drop the node and
        lattice references even if destroy throws. A second close() finds no
        lattice, so no handle is ever destroyed twice. */
    method Close(destroyFails: bool) returns (r: Outcome)
      requires Valid()
      modifies this
      ensures Valid() && lattice.None? && node.None?
      ensures destroyed == old(destroyed) + (if old(lattice).Some? then [old(lattice).value.handle] else [])
      ensures r == (if old(lattice).Some? && destroyFails then Fail(DestroyFailed) else Pass)
      ensures input == old(input) && offset == old(offset) && attrs == old(attrs) && issued == old(issued)
    {
      r := Pass;
      if lattice.Some? {
        destroyed := destroyed + [lattice.value.handle];
        if destroyFails {
          r := Fail(DestroyFailed);
        }
      }
      node := None;
      lattice := None;
    }
  }
}
