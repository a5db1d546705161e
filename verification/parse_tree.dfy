/**
 * The abstract output of the grammar engine: a tree of rule-tagged nodes.
 * Each node carries the rule that matched, the text it spans, and its
 * children in source order. Rules the converter never inspects are kept
 * under their grammar name in `Other`.
 */
module ParseTree {

  datatype Rule =
    | OntologyDocument
    | PrefixDeclaration
    | Ontology
    | OntologyIRI
    | VersionIRI
    | Import
    | Annotation
    | AnnotationProperty
    | AnnotationValue
    | AnonymousIndividual
    | IRI
    | AbbreviatedIRI
    | FullIRI
    | Literal
    | TypedLiteral
    | StringLiteralWithLanguage
    | StringLiteralNoLanguage
    | QuotedString
    | Other(name: string)

  datatype Pair = Pair(rule: Rule, text: string, inner: seq<Pair>)

  /** A leaf: a token of the grammar with no children. */
  function Token(name: string, text: string): Pair
  {
    Pair(Other(name), text, [])
  }
}
