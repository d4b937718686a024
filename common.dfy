/** Values shared by the tokenizer, the filter and the analyzer: optional values,
    the exceptions the Java code throws, and the attribute record of a token. */
module Common {

  datatype Option<+T> = None | Some(value: T)

  /** The exceptions of the core. `IOException` carries its message;
      `MeCabTokenizerException` is the unchecked wrapper the analyzer throws
      around an IOException; `DestroyFailed` is whatever a lattice's native
      destroy() throws. */
  datatype Failure =
    | IOException(message: string)
    | MeCabTokenizerException(cause: Failure)
    | DestroyFailed

  /** Normal return with a value, or a thrown exception. */
  datatype Result<+T> = Ok(value: T) | Err(error: Failure)

  /** Normal return of a void method, or a thrown exception. */
  datatype Outcome = Pass | Fail(error: Failure)

  /** The attributes of the current token as the host framework keeps them:
      term text, start and end offsets, type (the morpheme's feature string)
      and position increment. */
  datatype Token = Token(term: string, startOffset: int, endOffset: int, tokenType: string, posInc: int)

  /** The attribute values after clearAttributes(): empty term, offsets 0,
      the framework's default type "word" and position increment 1. */
  const Cleared: Token := Token("", 0, 0, "word", 1)

  /** The text a reader delivers in the given chunks, in order. */
  function Concat(chunks: seq<string>): string
  {
    if chunks == [] then [] else Concat(chunks[..|chunks| - 1]) + chunks[|chunks| - 1]
  }

  /** Appending one more chunk appends its text. */
  lemma ConcatSnoc(chunks: seq<string>, i: nat)
    requires i < |chunks|
    ensures Concat(chunks[..i + 1]) == Concat(chunks[..i]) + chunks[i]
  {
    assert chunks[..i + 1][..i] == chunks[..i];
  }

  /** A reader never delivers less text by delivering more chunks. */
  lemma {:induction false} ConcatPrefixShorter(chunks: seq<string>, k: nat)
    requires k <= |chunks|
    ensures |Concat(chunks[..k])| <= |Concat(chunks)|
    decreases |chunks| - k
  {
    if k < |chunks| {
      ConcatSnoc(chunks, k);
      ConcatPrefixShorter(chunks, k + 1);
    } else {
      assert chunks[..k] == chunks;
    }
  }
}
