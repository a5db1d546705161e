/**
 * The ontology document model the transform reads and writes: IRIs,
 * literals, class expressions, data ranges, axioms, annotated axioms and
 * ontologies. Entities (classes, properties, datatypes, named individuals)
 * are represented by their IRI, since each one displays exactly as its IRI.
 */
module Owl {
  import opened Wrappers

  /** The width of the cardinality of a restriction (`u32`). */
  newtype u32 = x: int | 0 <= x < 0x1_0000_0000

  datatype Iri = Iri(text: string)

  /** A literal: exactly one of the three forms, never tagged twice. */
  datatype Literal =
    | SimpleLiteral(literal: string)
    | LanguageLiteral(literal: string, lang: string)
    | DatatypeLiteral(literal: string, datatypeIri: Iri)

  datatype Individual = Named(iri: Iri) | Anonymous(nodeId: string)

  datatype ObjectPropertyExpression =
    | ObjectProperty(iri: Iri)
    | InverseObjectProperty(iri: Iri)

  datatype SubObjectPropertyExpression =
    | SubProperty(ope: ObjectPropertyExpression)
    | ObjectPropertyChain(chain: seq<ObjectPropertyExpression>)

  /** The closed facet vocabulary of datatype restrictions. */
  datatype Facet =
    | Length | MinLength | MaxLength | Pattern
    | MinInclusive | MinExclusive | MaxInclusive | MaxExclusive
    | TotalDigits | FractionDigits | LangRange

  const XsdNamespace := "http://www.w3.org/2001/XMLSchema#"
  const RdfNamespace := "http://www.w3.org/1999/02/22-rdf-syntax-ns#"

  /** The IRI naming each facet. */
  function FacetIri(f: Facet): string
  {
    match f
    case Length => XsdNamespace + "length"
    case MinLength => XsdNamespace + "minLength"
    case MaxLength => XsdNamespace + "maxLength"
    case Pattern => XsdNamespace + "pattern"
    case MinInclusive => XsdNamespace + "minInclusive"
    case MinExclusive => XsdNamespace + "minExclusive"
    case MaxInclusive => XsdNamespace + "maxInclusive"
    case MaxExclusive => XsdNamespace + "maxExclusive"
    case TotalDigits => XsdNamespace + "totalDigits"
    case FractionDigits => XsdNamespace + "fractionDigits"
    case LangRange => RdfNamespace + "langRange"
  }

  datatype FacetRestriction = FacetRestriction(f: Facet, l: Literal)

  datatype DataRange =
    | Datatype(iri: Iri)
    | DataIntersectionOf(ranges: seq<DataRange>)
    | DataUnionOf(ranges: seq<DataRange>)
    | DataComplementOf(range: DataRange)
    | DataOneOf(literals: seq<Literal>)
    | DatatypeRestriction(dt: Iri, restrictions: seq<FacetRestriction>)

  datatype ClassExpression =
    | Class(iri: Iri)
    | ObjectIntersectionOf(operands: seq<ClassExpression>)
    | ObjectUnionOf(operands: seq<ClassExpression>)
    | ObjectComplementOf(operand: ClassExpression)
    | ObjectOneOf(individuals: seq<Individual>)
    | ObjectSomeValuesFrom(ope: ObjectPropertyExpression, bce: ClassExpression)
    | ObjectAllValuesFrom(ope: ObjectPropertyExpression, bce: ClassExpression)
    | ObjectHasValue(ope: ObjectPropertyExpression, i: Individual)
    | ObjectHasSelf(ope: ObjectPropertyExpression)
    | ObjectMinCardinality(n: u32, ope: ObjectPropertyExpression, bce: ClassExpression)
    | ObjectMaxCardinality(n: u32, ope: ObjectPropertyExpression, bce: ClassExpression)
    | ObjectExactCardinality(n: u32, ope: ObjectPropertyExpression, bce: ClassExpression)
    | DataSomeValuesFrom(dp: Iri, dr: DataRange)
    | DataAllValuesFrom(dp: Iri, dr: DataRange)
    | DataHasValue(dp: Iri, l: Literal)
    | DataMinCardinality(n: u32, dp: Iri, dr: DataRange)
    | DataMaxCardinality(n: u32, dp: Iri, dr: DataRange)
    | DataExactCardinality(n: u32, dp: Iri, dr: DataRange)

  /** A member of a key: an object property expression or a data property. */
  datatype PropertyExpression =
    | ObjectPropertyExpr(ope: ObjectPropertyExpression)
    | DataProperty(dp: Iri)

  datatype AnnotationValue = LiteralValue(literal: Literal) | IriValue(iri: Iri)

  datatype Annotation = Annotation(ap: Iri, av: AnnotationValue)

  /** The six kinds of entity a declaration can introduce. */
  datatype EntityKind =
    | ClassKind | ObjectPropertyKind | AnnotationPropertyKind
    | DataPropertyKind | NamedIndividualKind | DatatypeKind

  /** The seven object property characteristics, each its own axiom shape. */
  datatype Characteristic =
    | Functional | InverseFunctional | Reflexive | Irreflexive
    | Symmetric | Asymmetric | Transitive

  datatype Axiom =
    | OntologyAnnotation(annotation: Annotation)
    | Import(imported: Iri)
    | Declare(kind: EntityKind, entity: Iri)
    | SubClassOf(sub: ClassExpression, sup: ClassExpression)
    | EquivalentClasses(classes: seq<ClassExpression>)
    | DisjointClasses(classes: seq<ClassExpression>)
    | DisjointUnion(unionClass: Iri, classes: seq<ClassExpression>)
    | SubObjectPropertyOf(subOpe: SubObjectPropertyExpression, supOpe: ObjectPropertyExpression)
    | EquivalentObjectProperties(opes: seq<ObjectPropertyExpression>)
    | DisjointObjectProperties(opes: seq<ObjectPropertyExpression>)
    | InverseObjectProperties(first: Iri, second: Iri)
    | ObjectPropertyDomain(ope: ObjectPropertyExpression, ce: ClassExpression)
    | ObjectPropertyRange(ope: ObjectPropertyExpression, ce: ClassExpression)
    | ObjectPropertyCharacteristic(characteristic: Characteristic, ope: ObjectPropertyExpression)
    | SubDataPropertyOf(subDp: Iri, supDp: Iri)
    | EquivalentDataProperties(dps: seq<Iri>)
    | DisjointDataProperties(dps: seq<Iri>)
    | DataPropertyDomain(dp: Iri, ce: ClassExpression)
    | DataPropertyRange(dp: Iri, dr: DataRange)
    | FunctionalDataProperty(dp: Iri)
    | DatatypeDefinition(dt: Iri, range: DataRange)
    | HasKey(ce: ClassExpression, vpe: seq<PropertyExpression>)
    | SameIndividual(individuals: seq<Individual>)
    | DifferentIndividuals(individuals: seq<Individual>)
    | ClassAssertion(ce: ClassExpression, i: Individual)
    | ObjectPropertyAssertion(ope: ObjectPropertyExpression, from: Individual, to: Individual)
    | NegativeObjectPropertyAssertion(ope: ObjectPropertyExpression, from: Individual, to: Individual)
    | DataPropertyAssertion(dp: Iri, from: Individual, value: Literal)
    | NegativeDataPropertyAssertion(dp: Iri, from: Individual, value: Literal)
    | AnnotationAssertion(subject: Iri, annotation: Annotation)
    | SubAnnotationPropertyOf(subAp: Iri, supAp: Iri)
    | AnnotationPropertyDomain(ap: Iri, iri: Iri)
    | AnnotationPropertyRange(ap: Iri, iri: Iri)

  /** An axiom with the annotations attached to it, in iteration order. */
  datatype AnnotatedAxiom = AnnotatedAxiom(axiom: Axiom, ann: seq<Annotation>)

  datatype OntologyId = OntologyId(iri: Option<Iri>, viri: Option<Iri>)

  /** An ontology: its identity and its annotated axioms in iteration order. */
  datatype Ontology = Ontology(id: OntologyId, axioms: seq<AnnotatedAxiom>)

  const EmptyOntology := Ontology(OntologyId(None, None), [])
}
