/** The native MeCab analyser as the tokenizer sees it: a tagger that turns a
    sentence into a node list (or rejects it with a diagnostic), and a lattice
    handle that owns that list until it is destroyed. Segmentation itself is
    not modelled: the tagger is a given function. */
module MeCab {
  import opened Common

  /** Node.stat(): ordinary morpheme, or the BOS / EOS sentinel. */
  datatype Status = Normal | Bos | Eos

  /** Node.leadingSpaceAndSurface(): the whitespace before the morpheme
      (null when the analyser reports none) and its surface form. */
  datatype Spelling = Spelling(leadingSpace: Option<string>, surface: string)

  /** One node of the list. `spelling` is None when the native side cannot
      decode the leading-space/surface pair (leadingSpaceAndSurface returns false). */
  datatype Node = Node(stat: Status, spelling: Option<Spelling>, feature: string)

  /** What tagger.parse(lattice) leaves in the lattice: the node list, BOS first
      and EOS last, or a rejection with the lattice's diagnostic (lattice.what()). */
  datatype Analysis = Analysed(nodes: seq<Node>) | Rejected(what: string)

  /** The tagger, reduced to the analysis it produces for a sentence. */
  datatype Tagger = Tagger(analyse: string -> Analysis)

  /** A lattice created by tagger.createLattice(): a native handle, the sentence
      set on it, the node list the parse produced, and whether clear() was called. */
  datatype Lattice = Lattice(handle: nat, sentence: string, nodes: seq<Node>, cleared: bool)

  /** The leading whitespace of a node, the empty string when it is null. */
  function LeadText(sp: Spelling): (ws: string)
    ensures sp.leadingSpace.None? ==> ws == []
    ensures sp.leadingSpace.Some? ==> ws == sp.leadingSpace.value
  {
    match sp.leadingSpace
    case None => []
    case Some(s) => s
  }

  /** lattice.bosNode(): the first node of the list, null for an empty list. */
  function BosNode(nodes: seq<Node>): (b: Option<nat>)
    ensures b.Some? ==> b.value < |nodes|
  {
    if |nodes| == 0 then None else Some(0)
  }

  /** node.next(): the following node, null after the last one. */
  function Successor(nodes: seq<Node>, c: nat): (n: Option<nat>)
    requires c < |nodes|
    ensures n.Some? ==> n.value == c + 1 && n.value < |nodes|
    ensures n.None? <==> c == |nodes| - 1
  {
    if c + 1 < |nodes| then Some(c + 1) else None
  }
}
