/** Option and Result values, and the error conditions the core raises. */
module Wrappers {

  datatype Option<+T> = None | Some(value: T)

  /** The exceptions of the hypergraph reader, the arena and the search. */
  datatype Error =
    | AllocatingPastEnd        // FixedAllocator::New on a full pool
    | EndOfFile                // util::FilePiece::ReadLine past the last line
    | BadHeader                // first line is not the format header
    | BadNumber                // boost::lexical_cast of a count failed
    | BadNonTerminal           // "[...]" slot whose content is not a vertex number
    | VertexOutOfRange         // "[k]" with k not yet allocated
    | BadFeature               // feature token without '='
    | BadWeight                // feature value that parses as NaN
    | NotTopologicallySorted   // child still unscored when its parent is scored
    | SentenceOutOfRange       // std::vector::at on an unknown sentence id

  datatype Result<+T> = Ok(value: T) | Err(error: Error)

  /** Concatenation regroups freely; the proofs that split a text call this. */
  lemma ConcatAssoc<T>(x: seq<T>, y: seq<T>, z: seq<T>)
    ensures x + (y + z) == (x + y) + z
  {
  }
}
