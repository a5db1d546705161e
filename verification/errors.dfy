/**
 * The error taxonomy shared by every conversion: a grammar error located at
 * a span of the input, an I/O error, a failed CURIE expansion, and an IRI
 * that names no facet.
 */
module Errors {
  import opened ParseTree
  import Curie

  /** A region of the input, by start and end position. */
  datatype Span = Span(start: nat, end: nat)

  datatype ErrorVariant =
    | ParsingError(positives: seq<Rule>, negatives: seq<Rule>)
    | CustomError(message: string)

  /** A grammar-level error: what went wrong, and where. */
  datatype PestError = PestError(variant: ErrorVariant, span: Span)

  /** An I/O failure, passed through from the reader; its details are opaque here. */
  datatype IoError = IoError(description: string)

  datatype Error =
    | Pest(pest: PestError)
    | IO(io: IoError)
    | Expansion(expansion: Curie.ExpansionError)
    | InvalidFacet(iri: string)

  /** A grammar error is wrapped, unchanged, as a `Pest` error. */
  function FromPest(e: PestError): (r: Error)
    ensures r.Pest? && r.pest == e
  {
    Pest(e)
  }

  /** An expansion error is carried, unchanged, as an `Expansion` error. */
  function FromExpansion(e: Curie.ExpansionError): (r: Error)
    ensures r.Expansion? && r.expansion == e
  {
    Expansion(e)
  }

  /** A custom grammar error with the given message, located at `span`. */
  function Custom(message: string, span: Span): (r: Error)
    ensures r.Pest? && r.pest.variant.CustomError?
    ensures r.pest.variant.message == message && r.pest.span == span
  {
    FromPest(PestError(CustomError(message), span))
  }

  /** Conversions keep the kind of the error they convert, and never collide. */
  lemma ConversionsKeepKind(p: PestError, x: Curie.ExpansionError, message: string, span: Span)
    ensures FromPest(p) != FromExpansion(x)
    ensures Custom(message, span) != FromExpansion(x)
    ensures FromPest(p) == Custom(message, span) <==> p == PestError(CustomError(message), span)
  {
  }
}
