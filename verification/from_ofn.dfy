/**
 * Reading a value from a complete text: the grammar is run for the value's
 * rule, and the text must be consumed in full before the converter sees the
 * first node. The grammar engine is a parameter of the model.
 */
module FromOfn {
  import opened Wrappers
  import opened Owl
  import opened Curie
  import opened ParseTree
  import opened Errors
  import FromPair

  /** What the grammar matched from the start of the input: the nodes and the length they span. */
  datatype Parsed = Parsed(pairs: seq<Pair>, consumed: nat)

  /** A grammar run: the nodes matched for a rule at the start of a text, or a grammar error. */
  type Parser = (Rule, string) -> Result<Parsed, PestError>

  /** A conversion from a node, given the prefix table of the context. */
  type Converter<T> = (Pair, PrefixMapping) -> Result<T, Error>

  /** A successful run matched at least one node and did not run past the end of the text. */
  predicate WellParsed(parsed: Result<Parsed, PestError>, s: string)
  {
    parsed.Ok? ==> |parsed.value.pairs| >= 1 && parsed.value.consumed <= |s|
  }

  const RemainingInput := "remaining input"

  /**
   * The value the text spells, against the context's prefix table. A
   * grammar error is passed through; a match that stops short of the end
   * of the text is refused with a `remaining input` error spanning the
   * unread tail.
   */
  function FromOfnCtx<T>(s: string, rule: Rule, parse: Parser, convert: Converter<T>, ctx: PrefixMapping): (r: Result<T, Error>)
    requires WellParsed(parse(rule, s), s)
    ensures r.Ok? ==> parse(rule, s).Ok? && parse(rule, s).value.consumed == |s|
    ensures r.Ok? ==> r == convert(parse(rule, s).value.pairs[0], ctx)
    ensures parse(rule, s).Err? ==> r == Err(FromPest(parse(rule, s).error))
    ensures parse(rule, s).Ok? && parse(rule, s).value.consumed < |s| ==>
              r == Err(Custom(RemainingInput, Span(parse(rule, s).value.consumed, |s|)))
  {
    match parse(rule, s)
    case Err(e) => Err(FromPest(e))
    case Ok(parsed) =>
      if parsed.consumed == |s| then convert(parsed.pairs[0], ctx)
      else Err(Custom(RemainingInput, Span(parsed.consumed, |s|)))
  }

  /** The same, with the default (empty) context. */
  function FromOfnDefault<T>(s: string, rule: Rule, parse: Parser, convert: Converter<T>): (r: Result<T, Error>)
    requires WellParsed(parse(rule, s), s)
    ensures parse(rule, s).Ok? && parse(rule, s).value.consumed == |s| ==>
              r == convert(parse(rule, s).value.pairs[0], Empty)
    ensures r.Ok? ==> parse(rule, s).Ok? && parse(rule, s).value.consumed == |s|
  {
    FromOfnCtx(s, rule, parse, convert, Empty)
  }

  /**
   * When the grammar stops short of the end, the converter is never
   * consulted: any two converters give the same error.
   */
  lemma RemainingInputIgnoresConverter<T>(s: string, rule: Rule, parse: Parser, c1: Converter<T>, c2: Converter<T>, ctx: PrefixMapping)
    requires WellParsed(parse(rule, s), s)
    requires parse(rule, s).Ok? && parse(rule, s).value.consumed < |s|
    ensures FromOfnCtx(s, rule, parse, c1, ctx) == FromOfnCtx(s, rule, parse, c2, ctx)
    ensures FromOfnCtx(s, rule, parse, c1, ctx).Err? && FromOfnCtx(s, rule, parse, c1, ctx).error.Pest?
  {
  }

  /**
   * Two class declarations where one is expected: the grammar matches the
   * first, and the reading fails with a grammar error whose variant is the
   * custom `remaining input` message.
   */
  lemma TwoClassesExample<T>(parse: Parser, convert: Converter<T>, first: Pair)
    requires var s := "Class(<http://example.com/a>) Class(<http://example.com/b>)";
             parse(Other("Class"), s) == Ok(Parsed([first], |"Class(<http://example.com/a>)"|))
    ensures var s := "Class(<http://example.com/a>) Class(<http://example.com/b>)";
            var r := FromOfnDefault(s, Other("Class"), parse, convert);
            r.Err? && r.error.Pest? && r.error.pest.variant == CustomError(RemainingInput)
  {
  }

  /** An unterminated `Ontology(` is refused by the grammar, and the reading fails with a grammar error. */
  lemma UnterminatedExample(parse: Parser, ctx: PrefixMapping)
    requires parse(OntologyDocument, "Ontology(").Err?
    ensures DocumentFromOfn("Ontology(", parse, ctx).Err? && DocumentFromOfn("Ontology(", parse, ctx).error.Pest?
  {
  }

  /** A whole ontology document, read from a complete text. */
  function DocumentFromOfn(s: string, parse: Parser, ctx: PrefixMapping): (r: Result<(Ontology, PrefixMapping), Error>)
    requires WellParsed(parse(OntologyDocument, s), s)
    requires parse(OntologyDocument, s).Ok? && parse(OntologyDocument, s).value.consumed == |s| ==>
               FromPair.DocumentShaped(parse(OntologyDocument, s).value.pairs[0])
    ensures r.Ok? ==> parse(OntologyDocument, s).Ok? && parse(OntologyDocument, s).value.consumed == |s|
    ensures r.Err? ==> r.error.Pest? || r.error.Expansion?
    ensures parse(OntologyDocument, s).Err? ==> r == Err(FromPest(parse(OntologyDocument, s).error))
    ensures parse(OntologyDocument, s).Ok? && parse(OntologyDocument, s).value.consumed < |s| ==>
              r == Err(Custom(RemainingInput, Span(parse(OntologyDocument, s).value.consumed, |s|)))
    ensures parse(OntologyDocument, s).Ok? && parse(OntologyDocument, s).value.consumed == |s| ==>
              r == FromPair.DocumentFromPair(parse(OntologyDocument, s).value.pairs[0], ctx)
  {
    match parse(OntologyDocument, s)
    case Err(e) => Err(FromPest(e))
    case Ok(parsed) =>
      if parsed.consumed == |s| then FromPair.DocumentFromPair(parsed.pairs[0], ctx)
      else Err(Custom(RemainingInput, Span(parsed.consumed, |s|)))
  }

  /**
   * The document reading is the complete-text reading at the document rule,
   * with the document converter: any converter that agrees with it on the
   * matched node gives the same result.
   */
  lemma DocumentIsCompleteTextReading(s: string, parse: Parser, ctx: PrefixMapping, convert: Converter<(Ontology, PrefixMapping)>)
    requires WellParsed(parse(OntologyDocument, s), s)
    requires parse(OntologyDocument, s).Ok? && parse(OntologyDocument, s).value.consumed == |s| ==>
               FromPair.DocumentShaped(parse(OntologyDocument, s).value.pairs[0]) &&
               convert(parse(OntologyDocument, s).value.pairs[0], ctx)
                 == FromPair.DocumentFromPair(parse(OntologyDocument, s).value.pairs[0], ctx)
    ensures DocumentFromOfn(s, parse, ctx) == FromOfnCtx(s, OntologyDocument, parse, convert, ctx)
  {
  }

  /**
   * A document is read the same way whatever context the caller gives: the
   * prefix table comes from the document's own declarations.
   */
  lemma DocumentIgnoresContext(s: string, parse: Parser, c1: PrefixMapping, c2: PrefixMapping)
    requires WellParsed(parse(OntologyDocument, s), s)
    requires parse(OntologyDocument, s).Ok? && parse(OntologyDocument, s).value.consumed == |s| ==>
               FromPair.DocumentShaped(parse(OntologyDocument, s).value.pairs[0])
    ensures DocumentFromOfn(s, parse, c1) == DocumentFromOfn(s, parse, c2)
  {
  }
}
