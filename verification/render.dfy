/**
 * The canonical renderer, from model values to functional-syntax text.
 *
 * The repository carries two generations of it. The contextual one writes
 * IRIs through an optional prefix table (abbreviating when the table can)
 * and places an axiom's annotations before its operands; the context-free
 * one always writes full IRIs, has no annotation slot, and leaves
 * individuals and facet restrictions unimplemented. Both share the
 * per-shape templates `Keyword(operand operand ...)`, so they are one
 * renderer here, parametrised by the generation, with every difference
 * between them an explicit branch.
 */
module Render {
  import opened Wrappers
  import opened Text
  import opened Owl
  import opened Quoting

  /**
   * The context of the contextual renderer. When it holds a prefix table,
   * `shrink` is that table's abbreviation: the compact form of an IRI, or
   * nothing when no prefix matches it.
   */
  datatype Context = Context(shrink: Option<string -> Option<string>>)

  const NoContext := Context(None)

  datatype Generation = Contextual(ctx: Context) | ContextFree

  /** `Keyword(a b ...)`: a shape's keyword around its space-joined fields. */
  function Call(keyword: string, fields: seq<string>): string
  {
    keyword + "(" + Join(fields) + ")"
  }

  /** The full, bracketed form of an IRI. */
  function Bracketed(iri: Iri): string
  {
    "<" + iri.text + ">"
  }

  function RenderIri(g: Generation, iri: Iri): string
  {
    match g
    case Contextual(Context(Some(shrink))) =>
      (match shrink(iri.text)
       case Some(curie) => curie
       case None => Bracketed(iri))
    case _ => Bracketed(iri)
  }

  function RenderLiteral(g: Generation, l: Literal): string
  {
    match l
    case SimpleLiteral(s) => Quoted(s)
    case LanguageLiteral(s, lang) => Quoted(s) + "@" + lang
    case DatatypeLiteral(s, dt) => Quoted(s) + "^^" + RenderIri(g, dt)
  }

  function RenderLiterals(g: Generation, ls: seq<Literal>): (r: seq<string>)
    ensures |r| == |ls| && forall k :: 0 <= k < |ls| ==> r[k] == RenderLiteral(g, ls[k])
  {
    seq(|ls|, k requires 0 <= k < |ls| => RenderLiteral(g, ls[k]))
  }

  /**
   * The individuals a generation can write: the context-free generation
   * writes none, and the display of anonymous individuals is outside this
   * model.
   */
  predicate IndividualOk(g: Generation, i: Individual)
  {
    g.Contextual? && i.Named?
  }

  predicate IndividualsOk(g: Generation, inds: seq<Individual>)
  {
    forall k :: 0 <= k < |inds| ==> IndividualOk(g, inds[k])
  }

  function RenderIndividual(g: Generation, i: Individual): string
    requires IndividualOk(g, i)
  {
    RenderIri(g, i.iri)
  }

  function RenderIndividuals(g: Generation, inds: seq<Individual>): (r: seq<string>)
    requires IndividualsOk(g, inds)
    ensures |r| == |inds| && forall k :: 0 <= k < |inds| ==> r[k] == RenderIndividual(g, inds[k])
  {
    seq(|inds|, k requires 0 <= k < |inds| => RenderIndividual(g, inds[k]))
  }

  function RenderOpe(g: Generation, ope: ObjectPropertyExpression): string
  {
    match ope
    case ObjectProperty(p) => RenderIri(g, p)
    case InverseObjectProperty(p) => Call("ObjectInverseOf", [RenderIri(g, p)])
  }

  function RenderOpes(g: Generation, opes: seq<ObjectPropertyExpression>): (r: seq<string>)
    ensures |r| == |opes| && forall k :: 0 <= k < |opes| ==> r[k] == RenderOpe(g, opes[k])
  {
    seq(|opes|, k requires 0 <= k < |opes| => RenderOpe(g, opes[k]))
  }

  function RenderIris(g: Generation, iris: seq<Iri>): (r: seq<string>)
    ensures |r| == |iris| && forall k :: 0 <= k < |iris| ==> r[k] == RenderIri(g, iris[k])
  {
    seq(|iris|, k requires 0 <= k < |iris| => RenderIri(g, iris[k]))
  }

  function RenderSubOpe(g: Generation, sub: SubObjectPropertyExpression): string
  {
    match sub
    case SubProperty(ope) => RenderOpe(g, ope)
    case ObjectPropertyChain(chain) => Call("ObjectPropertyChain", RenderOpes(g, chain))
  }

  /**
   * A facet restriction is written as the facet's IRI, unbracketed, and its
   * literal; only the contextual generation implements it.
   */
  function RenderFacetRestriction(g: Generation, fr: FacetRestriction): string
    requires g.Contextual?
  {
    FacetIri(fr.f) + " " + RenderLiteral(g, fr.l)
  }

  predicate FacetRestrictionsOk(g: Generation, frs: seq<FacetRestriction>)
  {
    g.Contextual? || |frs| == 0
  }

  function RenderFacetRestrictions(g: Generation, frs: seq<FacetRestriction>): (r: seq<string>)
    requires FacetRestrictionsOk(g, frs)
    ensures |r| == |frs|
  {
    if |frs| == 0 then []
    else seq(|frs|, k requires 0 <= k < |frs| => RenderFacetRestriction(g, frs[k]))
  }

  predicate DataRangeOk(g: Generation, dr: DataRange)
    decreases dr
  {
    match dr
    case Datatype(_) => true
    case DataIntersectionOf(rs) => forall k :: 0 <= k < |rs| ==> DataRangeOk(g, rs[k])
    case DataUnionOf(rs) => forall k :: 0 <= k < |rs| ==> DataRangeOk(g, rs[k])
    case DataComplementOf(r) => DataRangeOk(g, r)
    case DataOneOf(_) => true
    case DatatypeRestriction(_, frs) => FacetRestrictionsOk(g, frs)
  }

  /**
   * The keyword under which an enumeration of literals is written: the
   * contextual generation writes it as `DataUnionOf`.
   */
  function OneOfKeyword(g: Generation): string
  {
    if g.Contextual? then "DataUnionOf" else "DataOneOf"
  }

  function RenderDataRange(g: Generation, dr: DataRange): string
    requires DataRangeOk(g, dr)
    decreases dr
  {
    match dr
    case Datatype(dt) => RenderIri(g, dt)
    case DataIntersectionOf(rs) => Call("DataIntersectionOf", RenderDataRanges(g, rs))
    case DataUnionOf(rs) => Call("DataUnionOf", RenderDataRanges(g, rs))
    case DataComplementOf(r) => Call("DataComplementOf", [RenderDataRange(g, r)])
    case DataOneOf(ls) => Call(OneOfKeyword(g), RenderLiterals(g, ls))
    case DatatypeRestriction(dt, frs) =>
      Call("DatatypeRestriction", [RenderIri(g, dt), Join(RenderFacetRestrictions(g, frs))])
  }

  function RenderDataRanges(g: Generation, rs: seq<DataRange>): (r: seq<string>)
    requires forall k :: 0 <= k < |rs| ==> DataRangeOk(g, rs[k])
    ensures |r| == |rs| && forall k :: 0 <= k < |rs| ==> r[k] == RenderDataRange(g, rs[k])
    decreases rs
  {
    if |rs| == 0 then [] else [RenderDataRange(g, rs[0])] + RenderDataRanges(g, rs[1..])
  }

  predicate ClassExpressionOk(g: Generation, ce: ClassExpression)
    decreases ce
  {
    match ce
    case Class(_) => true
    case ObjectIntersectionOf(cs) => forall k :: 0 <= k < |cs| ==> ClassExpressionOk(g, cs[k])
    case ObjectUnionOf(cs) => forall k :: 0 <= k < |cs| ==> ClassExpressionOk(g, cs[k])
    case ObjectComplementOf(c) => ClassExpressionOk(g, c)
    case ObjectOneOf(inds) => IndividualsOk(g, inds)
    case ObjectSomeValuesFrom(_, c) => ClassExpressionOk(g, c)
    case ObjectAllValuesFrom(_, c) => ClassExpressionOk(g, c)
    case ObjectHasValue(_, i) => IndividualOk(g, i)
    case ObjectHasSelf(_) => true
    case ObjectMinCardinality(_, _, c) => ClassExpressionOk(g, c)
    case ObjectMaxCardinality(_, _, c) => ClassExpressionOk(g, c)
    case ObjectExactCardinality(_, _, c) => ClassExpressionOk(g, c)
    case DataSomeValuesFrom(_, dr) => DataRangeOk(g, dr)
    case DataAllValuesFrom(_, dr) => DataRangeOk(g, dr)
    case DataHasValue(_, _) => true
    case DataMinCardinality(_, _, dr) => DataRangeOk(g, dr)
    case DataMaxCardinality(_, _, dr) => DataRangeOk(g, dr)
    case DataExactCardinality(_, _, dr) => DataRangeOk(g, dr)
  }

  predicate ClassExpressionsOk(g: Generation, cs: seq<ClassExpression>)
  {
    forall k :: 0 <= k < |cs| ==> ClassExpressionOk(g, cs[k])
  }

  function RenderClassExpression(g: Generation, ce: ClassExpression): string
    requires ClassExpressionOk(g, ce)
    decreases ce
  {
    match ce
    case Class(c) => RenderIri(g, c)
    case ObjectIntersectionOf(cs) => Call("ObjectIntersectionOf", RenderClassExpressions(g, cs))
    case ObjectUnionOf(cs) => Call("ObjectUnionOf", RenderClassExpressions(g, cs))
    case ObjectComplementOf(c) => Call("ObjectComplementOf", [RenderClassExpression(g, c)])
    case ObjectOneOf(inds) => Call("ObjectOneOf", RenderIndividuals(g, inds))
    case ObjectSomeValuesFrom(ope, c) =>
      Call("ObjectSomeValuesFrom", [RenderOpe(g, ope), RenderClassExpression(g, c)])
    case ObjectAllValuesFrom(ope, c) =>
      Call("ObjectAllValuesFrom", [RenderOpe(g, ope), RenderClassExpression(g, c)])
    case ObjectHasValue(ope, i) => Call("ObjectHasValue", [RenderOpe(g, ope), RenderIndividual(g, i)])
    case ObjectHasSelf(ope) => Call("ObjectHasSelf", [RenderOpe(g, ope)])
    case ObjectMinCardinality(n, ope, c) =>
      Call("ObjectMinCardinality", [Decimal(n as nat), RenderOpe(g, ope), RenderClassExpression(g, c)])
    case ObjectMaxCardinality(n, ope, c) =>
      Call("ObjectMaxCardinality", [Decimal(n as nat), RenderOpe(g, ope), RenderClassExpression(g, c)])
    case ObjectExactCardinality(n, ope, c) =>
      Call("ObjectExactCardinality", [Decimal(n as nat), RenderOpe(g, ope), RenderClassExpression(g, c)])
    case DataSomeValuesFrom(dp, dr) => Call("DataSomeValuesFrom", [RenderIri(g, dp), RenderDataRange(g, dr)])
    case DataAllValuesFrom(dp, dr) => Call("DataAllValuesFrom", [RenderIri(g, dp), RenderDataRange(g, dr)])
    case DataHasValue(dp, l) => Call("DataHasValue", [RenderIri(g, dp), RenderLiteral(g, l)])
    case DataMinCardinality(n, dp, dr) =>
      Call("DataMinCardinality", [Decimal(n as nat), RenderIri(g, dp), RenderDataRange(g, dr)])
    case DataMaxCardinality(n, dp, dr) =>
      Call("DataMaxCardinality", [Decimal(n as nat), RenderIri(g, dp), RenderDataRange(g, dr)])
    case DataExactCardinality(n, dp, dr) =>
      // Both generations write this shape under the DataMaxCardinality keyword.
      Call("DataMaxCardinality", [Decimal(n as nat), RenderIri(g, dp), RenderDataRange(g, dr)])
  }

  function RenderClassExpressions(g: Generation, cs: seq<ClassExpression>): (r: seq<string>)
    requires ClassExpressionsOk(g, cs)
    ensures |r| == |cs| && forall k :: 0 <= k < |cs| ==> r[k] == RenderClassExpression(g, cs[k])
    decreases cs
  {
    if |cs| == 0 then [] else [RenderClassExpression(g, cs[0])] + RenderClassExpressions(g, cs[1..])
  }

  function RenderAnnotationValue(g: Generation, av: AnnotationValue): string
  {
    match av
    case LiteralValue(l) => RenderLiteral(g, l)
    case IriValue(iri) => RenderIri(g, iri)
  }

  function RenderAnnotation(g: Generation, a: Annotation): string
  {
    Call("Annotation", [RenderIri(g, a.ap), RenderAnnotationValue(g, a.av)])
  }

  function RenderAnnotations(g: Generation, anns: seq<Annotation>): (r: seq<string>)
    ensures |r| == |anns| && forall k :: 0 <= k < |anns| ==> r[k] == RenderAnnotation(g, anns[k])
  {
    seq(|anns|, k requires 0 <= k < |anns| => RenderAnnotation(g, anns[k]))
  }

  function EntityKeyword(k: EntityKind): string
  {
    match k
    case ClassKind => "Class"
    case ObjectPropertyKind => "ObjectProperty"
    case AnnotationPropertyKind => "AnnotationProperty"
    case DataPropertyKind => "DataProperty"
    case NamedIndividualKind => "NamedIndividual"
    case DatatypeKind => "Datatype"
  }

  function CharacteristicKeyword(c: Characteristic): string
  {
    match c
    case Functional => "FunctionalObjectProperty"
    case InverseFunctional => "InverseFunctionalObjectProperty"
    case Reflexive => "ReflexiveObjectProperty"
    case Irreflexive => "IrreflexiveObjectProperty"
    case Symmetric => "SymmetricObjectProperty"
    case Asymmetric => "AsymmetricObjectProperty"
    case Transitive => "TransitiveObjectProperty"
  }

  predicate AxiomOk(g: Generation, ax: Axiom)
  {
    match ax
    case SubClassOf(a, b) => ClassExpressionOk(g, a) && ClassExpressionOk(g, b)
    case EquivalentClasses(cs) => ClassExpressionsOk(g, cs)
    case DisjointClasses(cs) => ClassExpressionsOk(g, cs)
    case DisjointUnion(_, cs) => ClassExpressionsOk(g, cs)
    case ObjectPropertyDomain(_, ce) => ClassExpressionOk(g, ce)
    case ObjectPropertyRange(_, ce) => ClassExpressionOk(g, ce)
    case DataPropertyDomain(_, ce) => ClassExpressionOk(g, ce)
    case DataPropertyRange(_, dr) => DataRangeOk(g, dr)
    case DatatypeDefinition(_, dr) => DataRangeOk(g, dr)
    case HasKey(ce, _) => ClassExpressionOk(g, ce)
    case SameIndividual(inds) => IndividualsOk(g, inds)
    case DifferentIndividuals(inds) => IndividualsOk(g, inds)
    case ClassAssertion(ce, i) => ClassExpressionOk(g, ce) && IndividualOk(g, i)
    case ObjectPropertyAssertion(_, a, b) => IndividualOk(g, a) && IndividualOk(g, b)
    case NegativeObjectPropertyAssertion(_, a, b) => IndividualOk(g, a) && IndividualOk(g, b)
    case DataPropertyAssertion(_, a, _) => IndividualOk(g, a)
    case NegativeDataPropertyAssertion(_, a, _) => IndividualOk(g, a)
    case _ => true
  }

  /**
   * The shapes written by the generic axiom template; declarations,
   * ontology annotations, annotation assertions and keys have their own
   * writers, which take no annotations.
   */
  predicate IsTemplated(ax: Axiom)
  {
    !(ax.Declare? || ax.OntologyAnnotation? || ax.AnnotationAssertion? || ax.HasKey?)
  }

  function Keyword(ax: Axiom): string
    requires IsTemplated(ax)
  {
    match ax
    case Import(_) => "Import"
    case SubClassOf(_, _) => "SubClassOf"
    case EquivalentClasses(_) => "EquivalentClasses"
    case DisjointClasses(_) => "DisjointClasses"
    case DisjointUnion(_, _) => "DisjointUnion"
    case SubObjectPropertyOf(_, _) => "SubObjectPropertyOf"
    case EquivalentObjectProperties(_) => "EquivalentObjectProperties"
    case DisjointObjectProperties(_) => "DisjointObjectProperties"
    case InverseObjectProperties(_, _) => "InverseObjectProperties"
    case ObjectPropertyDomain(_, _) => "ObjectPropertyDomain"
    case ObjectPropertyRange(_, _) => "ObjectPropertyRange"
    case ObjectPropertyCharacteristic(c, _) => CharacteristicKeyword(c)
    case SubDataPropertyOf(_, _) => "SubDataPropertyOf"
    case EquivalentDataProperties(_) => "EquivalentDataProperties"
    case DisjointDataProperties(_) => "DisjointDataProperties"
    case DataPropertyDomain(_, _) => "DataPropertyDomain"
    case DataPropertyRange(_, _) => "DataPropertyRange"
    case FunctionalDataProperty(_) => "FunctionalDataProperty"
    case DatatypeDefinition(_, _) => "DatatypeDefinition"
    case SameIndividual(_) => "SameIndividual"
    case DifferentIndividuals(_) => "DifferentIndividuals"
    case ClassAssertion(_, _) => "ClassAssertion"
    case ObjectPropertyAssertion(_, _, _) => "ObjectPropertyAssertion"
    case NegativeObjectPropertyAssertion(_, _, _) => "NegativeObjectPropertyAssertion"
    case DataPropertyAssertion(_, _, _) => "DataPropertyAssertion"
    case NegativeDataPropertyAssertion(_, _, _) => "NegativeDataPropertyAssertion"
    case SubAnnotationPropertyOf(_, _) => "SubAnnotationPropertyOf"
    case AnnotationPropertyDomain(_, _) => "AnnotationPropertyDomain"
    case AnnotationPropertyRange(_, _) => "AnnotationPropertyRange"
  }

  /**
   * The written fields of a templated axiom in declaration order; a field
   * that is a collection is written as its space-joined members.
   */
  function Operands(g: Generation, ax: Axiom): seq<string>
    requires IsTemplated(ax) && AxiomOk(g, ax)
  {
    match ax
    case Import(iri) => [RenderIri(g, iri)]
    case SubClassOf(a, b) => [RenderClassExpression(g, a), RenderClassExpression(g, b)]
    case EquivalentClasses(cs) => [Join(RenderClassExpressions(g, cs))]
    case DisjointClasses(cs) => [Join(RenderClassExpressions(g, cs))]
    case DisjointUnion(c, cs) => [RenderIri(g, c), Join(RenderClassExpressions(g, cs))]
    case SubObjectPropertyOf(sub, sup) => [RenderSubOpe(g, sub), RenderOpe(g, sup)]
    case EquivalentObjectProperties(opes) => [Join(RenderOpes(g, opes))]
    case DisjointObjectProperties(opes) => [Join(RenderOpes(g, opes))]
    case InverseObjectProperties(a, b) => [RenderIri(g, a), RenderIri(g, b)]
    case ObjectPropertyDomain(ope, ce) => [RenderOpe(g, ope), RenderClassExpression(g, ce)]
    case ObjectPropertyRange(ope, ce) => [RenderOpe(g, ope), RenderClassExpression(g, ce)]
    case ObjectPropertyCharacteristic(_, ope) => [RenderOpe(g, ope)]
    case SubDataPropertyOf(a, b) => [RenderIri(g, a), RenderIri(g, b)]
    case EquivalentDataProperties(dps) => [Join(RenderIris(g, dps))]
    case DisjointDataProperties(dps) => [Join(RenderIris(g, dps))]
    case DataPropertyDomain(dp, ce) => [RenderIri(g, dp), RenderClassExpression(g, ce)]
    case DataPropertyRange(dp, dr) => [RenderIri(g, dp), RenderDataRange(g, dr)]
    case FunctionalDataProperty(dp) => [RenderIri(g, dp)]
    case DatatypeDefinition(dt, dr) => [RenderIri(g, dt), RenderDataRange(g, dr)]
    case SameIndividual(inds) => [Join(RenderIndividuals(g, inds))]
    case DifferentIndividuals(inds) => [Join(RenderIndividuals(g, inds))]
    case ClassAssertion(ce, i) => [RenderClassExpression(g, ce), RenderIndividual(g, i)]
    case ObjectPropertyAssertion(ope, a, b) => [RenderOpe(g, ope), RenderIndividual(g, a), RenderIndividual(g, b)]
    case NegativeObjectPropertyAssertion(ope, a, b) =>
      [RenderOpe(g, ope), RenderIndividual(g, a), RenderIndividual(g, b)]
    case DataPropertyAssertion(dp, a, l) => [RenderIri(g, dp), RenderIndividual(g, a), RenderLiteral(g, l)]
    case NegativeDataPropertyAssertion(dp, a, l) =>
      [RenderIri(g, dp), RenderIndividual(g, a), RenderLiteral(g, l)]
    case SubAnnotationPropertyOf(a, b) => [RenderIri(g, a), RenderIri(g, b)]
    case AnnotationPropertyDomain(ap, iri) => [RenderIri(g, ap), RenderIri(g, iri)]
    case AnnotationPropertyRange(ap, iri) => [RenderIri(g, ap), RenderIri(g, iri)]
  }

  /**
   * The generic axiom template: with an annotation slot, the annotations
   * come first, then one space, then the operands.
   */
  function Template(keyword: string, annotations: Option<seq<string>>, operands: seq<string>): string
  {
    match annotations
    case Some(anns) => keyword + "(" + Join(anns) + " " + Join(operands) + ")"
    case None => Call(keyword, operands)
  }

  /** The members of a key that are object property expressions (or not), in order. */
  function KeyGroup(vpe: seq<PropertyExpression>, objects: bool): (r: seq<PropertyExpression>)
    ensures forall k :: 0 <= k < |r| ==> r[k].ObjectPropertyExpr? == objects
  {
    if |vpe| == 0 then []
    else (if vpe[0].ObjectPropertyExpr? == objects then [vpe[0]] else []) + KeyGroup(vpe[1..], objects)
  }

  function RenderProperty(g: Generation, pe: PropertyExpression): string
  {
    match pe
    case ObjectPropertyExpr(ope) => RenderOpe(g, ope)
    case DataProperty(dp) => RenderIri(g, dp)
  }

  function RenderProperties(g: Generation, pes: seq<PropertyExpression>): (r: seq<string>)
    ensures |r| == |pes| && forall k :: 0 <= k < |pes| ==> r[k] == RenderProperty(g, pes[k])
  {
    seq(|pes|, k requires 0 <= k < |pes| => RenderProperty(g, pes[k]))
  }

  /**
   * `HasKey(ce (opes) (dps) )`: the class expression, then the object and
   * the data members of the key, each group in parentheses and followed by
   * a space. The context-free generation writes no space after the class
   * expression.
   */
  function RenderHasKey(g: Generation, ce: ClassExpression, vpe: seq<PropertyExpression>): string
    requires ClassExpressionOk(g, ce)
  {
    "HasKey(" + RenderClassExpression(g, ce) + (if g.Contextual? then " " else "") + KeyGroups(g, vpe)
  }

  /** The two groups of a key, each followed by a space, and the closing parenthesis. */
  function KeyGroups(g: Generation, vpe: seq<PropertyExpression>): string
  {
    "(" + Join(RenderProperties(g, KeyGroup(vpe, true))) + ") "
      + "(" + Join(RenderProperties(g, KeyGroup(vpe, false))) + ") "
      + ")"
  }

  /**
   * Writes an axiom, with `ann` as its annotation slot. Only the
   * contextual generation has a slot, and only templated shapes use it.
   */
  function RenderAxiom(g: Generation, ax: Axiom, ann: Option<seq<Annotation>>): string
    requires AxiomOk(g, ax)
  {
    if ax.Declare? then "Declaration(" + Call(EntityKeyword(ax.kind), [RenderIri(g, ax.entity)]) + ")"
    else if ax.OntologyAnnotation? then RenderAnnotation(g, ax.annotation)
    else if ax.AnnotationAssertion? then
      Call("AnnotationAssertion",
           [RenderIri(g, ax.annotation.ap), RenderIri(g, ax.subject), RenderAnnotationValue(g, ax.annotation.av)])
    else if ax.HasKey? then RenderHasKey(g, ax.ce, ax.vpe)
    else
      var slot := if g.Contextual? && ann.Some? then Some(RenderAnnotations(g, ann.value)) else None;
      Template(Keyword(ax), slot, Operands(g, ax))
  }

  /**
   * With an annotation slot, a templated axiom's annotations are written
   * right after its opening parenthesis and followed by one space; the rest
   * is the text the axiom has without a slot.
   */
  lemma AnnotationsAfterKeyword(ctx: Context, ax: Axiom, anns: seq<Annotation>)
    requires IsTemplated(ax) && AxiomOk(Contextual(ctx), ax)
    ensures var plain := RenderAxiom(Contextual(ctx), ax, None);
            var open := |Keyword(ax)| + 1;
            open <= |plain| && plain[..open] == Keyword(ax) + "(" &&
            RenderAxiom(Contextual(ctx), ax, Some(anns))
              == plain[..open] + Join(RenderAnnotations(Contextual(ctx), anns)) + " " + plain[open..]
  {
    var g := Contextual(ctx);
    TemplatedAxiom(g, ax, None);
    TemplatedAxiom(g, ax, Some(anns));
    TemplateSlot(Keyword(ax), RenderAnnotations(g, anns), Operands(g, ax));
  }

  lemma TemplatedAxiom(g: Generation, ax: Axiom, ann: Option<seq<Annotation>>)
    requires IsTemplated(ax) && AxiomOk(g, ax)
    ensures RenderAxiom(g, ax, ann)
            == Template(Keyword(ax), if g.Contextual? && ann.Some? then Some(RenderAnnotations(g, ann.value)) else None,
                        Operands(g, ax))
  {
  }

  lemma TemplateSlot(kw: string, anns: seq<string>, ops: seq<string>)
    ensures var plain := Template(kw, None, ops);
            |kw| + 1 <= |plain| && plain[..|kw| + 1] == kw + "(" &&
            Template(kw, Some(anns), ops) == plain[..|kw| + 1] + Join(anns) + " " + plain[|kw| + 1..]
  {
    var plain := kw + "(" + Join(ops) + ")";
    assert plain[..|kw| + 1] == kw + "(";
    assert plain[|kw| + 1..] == Join(ops) + ")";
  }

  /**
   * `SubClassOf(sub sup)`: the subclass is written before the superclass,
   * after the annotations when the contextual generation has a slot.
   */
  lemma SubClassOfText(g: Generation, ax: Axiom, ann: Option<seq<Annotation>>)
    requires ax.SubClassOf? && AxiomOk(g, ax)
    ensures var a, b := RenderClassExpression(g, ax.sub), RenderClassExpression(g, ax.sup);
            RenderAxiom(g, ax, ann)
              == if g.Contextual? && ann.Some?
                 then "SubClassOf(" + Join(RenderAnnotations(g, ann.value)) + " " + a + " " + b + ")"
                 else "SubClassOf(" + a + " " + b + ")"
  {
    var a, b := RenderClassExpression(g, ax.sub), RenderClassExpression(g, ax.sup);
    var slot := if g.Contextual? && ann.Some? then Some(RenderAnnotations(g, ann.value)) else None;
    TemplatedAxiom(g, ax, ann);
    assert Keyword(ax) == "SubClassOf";
    assert Operands(g, ax) == [a, b];
    TwoOperandTemplate("SubClassOf", slot, a, b);
    assert "SubClassOf" + "(" == "SubClassOf(";
  }

  lemma TwoOperandTemplate(kw: string, slot: Option<seq<string>>, a: string, b: string)
    ensures Template(kw, slot, [a, b])
            == if slot.Some? then kw + "(" + Join(slot.value) + " " + a + " " + b + ")" else kw + "(" + a + " " + b + ")"
  {
    assert [a, b][1..] == [b];
    assert Join([a, b]) == a + " " + b;
  }

  /**
   * An enumeration of literals is written under `DataUnionOf` by the
   * contextual generation and under `DataOneOf` by the context-free one.
   */
  lemma OneOfShape(g: Generation, ls: seq<Literal>)
    ensures RenderDataRange(g, DataOneOf(ls))
            == (if g.Contextual? then "DataUnionOf" else "DataOneOf") + ("(" + Join(RenderLiterals(g, ls)) + ")")
  {
  }

  /**
   * Exact data cardinalities are written under the maximum cardinality
   * keyword, so two different restrictions share one text.
   */
  lemma ExactCardinalityWrittenAsMax(g: Generation, n: u32, dp: Iri, dr: DataRange)
    requires DataRangeOk(g, dr)
    ensures DataExactCardinality(n, dp, dr) != DataMaxCardinality(n, dp, dr)
    ensures RenderClassExpression(g, DataExactCardinality(n, dp, dr))
            == RenderClassExpression(g, DataMaxCardinality(n, dp, dr))
  {
  }

  /** The contextual generation writes an empty enumeration as an empty union. */
  lemma EmptyOneOfWrittenAsUnion(ctx: Context)
    ensures RenderDataRange(Contextual(ctx), DataOneOf([])) == RenderDataRange(Contextual(ctx), DataUnionOf([]))
  {
    assert RenderLiterals(Contextual(ctx), []) == [];
  }

  /**
   * The collection writer: members in iteration order, a single space
   * written before every member but the first.
   */
  method WriteJoined(items: seq<string>) returns (out: string)
    ensures out == Join(items)
  {
    out := "";
    var i := 0;
    while i < |items|
      invariant 0 <= i <= |items|
      invariant out == Join(items[..i])
    {
      if i != 0 {
        out := out + " ";
      }
      out := out + items[i];
      JoinSnoc(items[..i], items[i]);
      assert items[..i + 1] == items[..i] + [items[i]];
      i := i + 1;
    }
    assert items[..i] == items;
  }

  lemma {:induction false} KeyGroupAppend(a: seq<PropertyExpression>, b: seq<PropertyExpression>, objects: bool)
    ensures KeyGroup(a + b, objects) == KeyGroup(a, objects) + KeyGroup(b, objects)
    decreases |a|
  {
    if |a| == 0 {
      assert a + b == b;
    } else {
      assert (a + b)[1..] == a[1..] + b;
      KeyGroupAppend(a[1..], b, objects);
    }
  }

  /** Every member of a key lands in exactly one of the two groups. */
  lemma {:induction false} KeyGroupsPartition(vpe: seq<PropertyExpression>)
    ensures multiset(KeyGroup(vpe, true)) + multiset(KeyGroup(vpe, false)) == multiset(vpe)
    decreases |vpe|
  {
    if |vpe| != 0 {
      KeyGroupsPartition(vpe[1..]);
      assert vpe == [vpe[0]] + vpe[1..];
    }
  }

  /** Appending one member to a key extends the written group by it exactly when it is of the group's kind. */
  lemma KeyGroupStep(g: Generation, pre: seq<PropertyExpression>, pe: PropertyExpression, objects: bool)
    ensures pe.ObjectPropertyExpr? == objects ==>
              |KeyGroup(pre + [pe], objects)| == |KeyGroup(pre, objects)| + 1 &&
              Join(RenderProperties(g, KeyGroup(pre + [pe], objects)))
                == if |KeyGroup(pre, objects)| == 0 then RenderProperty(g, pe)
                   else Join(RenderProperties(g, KeyGroup(pre, objects))) + " " + RenderProperty(g, pe)
    ensures pe.ObjectPropertyExpr? != objects ==> KeyGroup(pre + [pe], objects) == KeyGroup(pre, objects)
  {
    KeyGroupAppend(pre, [pe], objects);
    assert [pe][1..] == [];
    if pe.ObjectPropertyExpr? == objects {
      var before := RenderProperties(g, KeyGroup(pre, objects));
      assert RenderProperties(g, KeyGroup(pre + [pe], objects)) == before + [RenderProperty(g, pe)];
      JoinSnoc(before, RenderProperty(g, pe));
    }
  }

  /**
   * The writer of one group of a key: it walks every member of the key,
   * writes those of the wanted kind, and counts them to place the
   * separating spaces.
   */
  method WriteKeyGroup(g: Generation, vpe: seq<PropertyExpression>, objects: bool) returns (out: string)
    ensures out == Join(RenderProperties(g, KeyGroup(vpe, objects)))
  {
    out := "";
    var n := 0;
    var i := 0;
    while i < |vpe|
      invariant 0 <= i <= |vpe|
      invariant n == |KeyGroup(vpe[..i], objects)|
      invariant out == Join(RenderProperties(g, KeyGroup(vpe[..i], objects)))
    {
      var pe := vpe[i];
      KeyGroupStep(g, vpe[..i], pe, objects);
      assert vpe[..i + 1] == vpe[..i] + [pe];
      if pe.ObjectPropertyExpr? == objects {
        if n != 0 {
          out := out + " ";
        }
        out := out + RenderProperty(g, pe);
        n := n + 1;
      }
      i := i + 1;
    }
    assert vpe[..i] == vpe;
  }

  /*
   * How the renderings of two generations relate. They agree on a value
   * whenever they write every IRI alike and, when the value enumerates
   * literals, they also agree on the enumeration keyword.
   */

  /** The two generations write every IRI alike. */
  ghost predicate SameIris(g1: Generation, g2: Generation)
  {
    forall iri: Iri :: RenderIri(g1, iri) == RenderIri(g2, iri)
  }

  predicate DataRangeUsesOneOf(dr: DataRange)
    decreases dr
  {
    match dr
    case Datatype(_) => false
    case DataIntersectionOf(rs) => exists k :: 0 <= k < |rs| && DataRangeUsesOneOf(rs[k])
    case DataUnionOf(rs) => exists k :: 0 <= k < |rs| && DataRangeUsesOneOf(rs[k])
    case DataComplementOf(r) => DataRangeUsesOneOf(r)
    case DataOneOf(_) => true
    case DatatypeRestriction(_, _) => false
  }

  predicate ClassExpressionUsesOneOf(ce: ClassExpression)
    decreases ce
  {
    match ce
    case ObjectIntersectionOf(cs) => exists k :: 0 <= k < |cs| && ClassExpressionUsesOneOf(cs[k])
    case ObjectUnionOf(cs) => exists k :: 0 <= k < |cs| && ClassExpressionUsesOneOf(cs[k])
    case ObjectComplementOf(c) => ClassExpressionUsesOneOf(c)
    case ObjectSomeValuesFrom(_, c) => ClassExpressionUsesOneOf(c)
    case ObjectAllValuesFrom(_, c) => ClassExpressionUsesOneOf(c)
    case ObjectMinCardinality(_, _, c) => ClassExpressionUsesOneOf(c)
    case ObjectMaxCardinality(_, _, c) => ClassExpressionUsesOneOf(c)
    case ObjectExactCardinality(_, _, c) => ClassExpressionUsesOneOf(c)
    case DataSomeValuesFrom(_, dr) => DataRangeUsesOneOf(dr)
    case DataAllValuesFrom(_, dr) => DataRangeUsesOneOf(dr)
    case DataMinCardinality(_, _, dr) => DataRangeUsesOneOf(dr)
    case DataMaxCardinality(_, _, dr) => DataRangeUsesOneOf(dr)
    case DataExactCardinality(_, _, dr) => DataRangeUsesOneOf(dr)
    case _ => false
  }

  predicate ClassExpressionsUseOneOf(cs: seq<ClassExpression>)
  {
    exists k :: 0 <= k < |cs| && ClassExpressionUsesOneOf(cs[k])
  }

  predicate AxiomUsesOneOf(ax: Axiom)
  {
    match ax
    case SubClassOf(a, b) => ClassExpressionUsesOneOf(a) || ClassExpressionUsesOneOf(b)
    case EquivalentClasses(cs) => ClassExpressionsUseOneOf(cs)
    case DisjointClasses(cs) => ClassExpressionsUseOneOf(cs)
    case DisjointUnion(_, cs) => ClassExpressionsUseOneOf(cs)
    case ObjectPropertyDomain(_, ce) => ClassExpressionUsesOneOf(ce)
    case ObjectPropertyRange(_, ce) => ClassExpressionUsesOneOf(ce)
    case DataPropertyDomain(_, ce) => ClassExpressionUsesOneOf(ce)
    case DataPropertyRange(_, dr) => DataRangeUsesOneOf(dr)
    case DatatypeDefinition(_, dr) => DataRangeUsesOneOf(dr)
    case HasKey(ce, _) => ClassExpressionUsesOneOf(ce)
    case ClassAssertion(ce, _) => ClassExpressionUsesOneOf(ce)
    case _ => false
  }

  /** The two generations write an enumeration of literals alike, or `used` says none occurs. */
  predicate KeywordsAgree(g1: Generation, g2: Generation, used: bool)
  {
    g1.Contextual? == g2.Contextual? || !used
  }

  lemma LiteralAgree(g1: Generation, g2: Generation, l: Literal)
    requires SameIris(g1, g2)
    ensures RenderLiteral(g1, l) == RenderLiteral(g2, l)
  {
    if l.DatatypeLiteral? {
      assert RenderIri(g1, l.datatypeIri) == RenderIri(g2, l.datatypeIri);
    }
  }

  lemma LiteralsAgree(g1: Generation, g2: Generation, ls: seq<Literal>)
    requires SameIris(g1, g2)
    ensures RenderLiterals(g1, ls) == RenderLiterals(g2, ls)
  {
    forall k | 0 <= k < |ls| ensures RenderLiterals(g1, ls)[k] == RenderLiterals(g2, ls)[k] {
      LiteralAgree(g1, g2, ls[k]);
    }
  }

  lemma OpeAgree(g1: Generation, g2: Generation, ope: ObjectPropertyExpression)
    requires SameIris(g1, g2)
    ensures RenderOpe(g1, ope) == RenderOpe(g2, ope)
  {
    assert RenderIri(g1, ope.iri) == RenderIri(g2, ope.iri);
  }

  lemma OpesAgree(g1: Generation, g2: Generation, opes: seq<ObjectPropertyExpression>)
    requires SameIris(g1, g2)
    ensures RenderOpes(g1, opes) == RenderOpes(g2, opes)
  {
    forall k | 0 <= k < |opes| ensures RenderOpes(g1, opes)[k] == RenderOpes(g2, opes)[k] {
      OpeAgree(g1, g2, opes[k]);
    }
  }

  lemma IrisAgree(g1: Generation, g2: Generation, iris: seq<Iri>)
    requires SameIris(g1, g2)
    ensures RenderIris(g1, iris) == RenderIris(g2, iris)
  {
    forall k | 0 <= k < |iris| ensures RenderIris(g1, iris)[k] == RenderIris(g2, iris)[k] {
    }
  }

  lemma IndividualsAgree(g1: Generation, g2: Generation, inds: seq<Individual>)
    requires SameIris(g1, g2) && IndividualsOk(g1, inds) && IndividualsOk(g2, inds)
    ensures RenderIndividuals(g1, inds) == RenderIndividuals(g2, inds)
  {
    forall k | 0 <= k < |inds| ensures RenderIndividuals(g1, inds)[k] == RenderIndividuals(g2, inds)[k] {
      assert RenderIri(g1, inds[k].iri) == RenderIri(g2, inds[k].iri);
    }
  }

  lemma FacetRestrictionsAgree(g1: Generation, g2: Generation, frs: seq<FacetRestriction>)
    requires SameIris(g1, g2) && FacetRestrictionsOk(g1, frs) && FacetRestrictionsOk(g2, frs)
    ensures RenderFacetRestrictions(g1, frs) == RenderFacetRestrictions(g2, frs)
  {
    if |frs| != 0 {
      forall k | 0 <= k < |frs|
        ensures RenderFacetRestrictions(g1, frs)[k] == RenderFacetRestrictions(g2, frs)[k]
      {
        LiteralAgree(g1, g2, frs[k].l);
      }
    }
  }

  lemma {:induction false} DataRangeAgree(g1: Generation, g2: Generation, dr: DataRange)
    requires SameIris(g1, g2) && DataRangeOk(g1, dr) && DataRangeOk(g2, dr)
    requires KeywordsAgree(g1, g2, DataRangeUsesOneOf(dr))
    ensures RenderDataRange(g1, dr) == RenderDataRange(g2, dr)
    decreases dr
  {
    match dr
    case Datatype(dt) =>
      assert RenderIri(g1, dt) == RenderIri(g2, dt);
    case DataIntersectionOf(rs) =>
      DataRangesAgree(g1, g2, rs);
    case DataUnionOf(rs) =>
      DataRangesAgree(g1, g2, rs);
    case DataComplementOf(r) =>
      DataRangeAgree(g1, g2, r);
    case DataOneOf(ls) =>
      LiteralsAgree(g1, g2, ls);
    case DatatypeRestriction(dt, frs) =>
      assert RenderIri(g1, dt) == RenderIri(g2, dt);
      FacetRestrictionsAgree(g1, g2, frs);
  }

  lemma {:induction false} DataRangesAgree(g1: Generation, g2: Generation, rs: seq<DataRange>)
    requires SameIris(g1, g2)
    requires forall k :: 0 <= k < |rs| ==> DataRangeOk(g1, rs[k]) && DataRangeOk(g2, rs[k])
    requires KeywordsAgree(g1, g2, exists k :: 0 <= k < |rs| && DataRangeUsesOneOf(rs[k]))
    ensures RenderDataRanges(g1, rs) == RenderDataRanges(g2, rs)
    decreases rs
  {
    forall k | 0 <= k < |rs| ensures RenderDataRanges(g1, rs)[k] == RenderDataRanges(g2, rs)[k] {
      DataRangeAgree(g1, g2, rs[k]);
    }
  }

  lemma {:induction false} ClassExpressionAgree(g1: Generation, g2: Generation, ce: ClassExpression)
    requires SameIris(g1, g2) && ClassExpressionOk(g1, ce) && ClassExpressionOk(g2, ce)
    requires KeywordsAgree(g1, g2, ClassExpressionUsesOneOf(ce))
    ensures RenderClassExpression(g1, ce) == RenderClassExpression(g2, ce)
    decreases ce
  {
    match ce
    case Class(c) =>
      assert RenderIri(g1, c) == RenderIri(g2, c);
    case ObjectIntersectionOf(cs) =>
      ClassExpressionsAgree(g1, g2, cs);
    case ObjectUnionOf(cs) =>
      ClassExpressionsAgree(g1, g2, cs);
    case ObjectComplementOf(c) =>
      ClassExpressionAgree(g1, g2, c);
    case ObjectOneOf(inds) =>
      IndividualsAgree(g1, g2, inds);
    case ObjectSomeValuesFrom(ope, c) =>
      OpeAgree(g1, g2, ope);
      ClassExpressionAgree(g1, g2, c);
    case ObjectAllValuesFrom(ope, c) =>
      OpeAgree(g1, g2, ope);
      ClassExpressionAgree(g1, g2, c);
    case ObjectHasValue(ope, i) =>
      OpeAgree(g1, g2, ope);
      assert RenderIri(g1, i.iri) == RenderIri(g2, i.iri);
    case ObjectHasSelf(ope) =>
      OpeAgree(g1, g2, ope);
    case ObjectMinCardinality(_, ope, c) =>
      OpeAgree(g1, g2, ope);
      ClassExpressionAgree(g1, g2, c);
    case ObjectMaxCardinality(_, ope, c) =>
      OpeAgree(g1, g2, ope);
      ClassExpressionAgree(g1, g2, c);
    case ObjectExactCardinality(_, ope, c) =>
      OpeAgree(g1, g2, ope);
      ClassExpressionAgree(g1, g2, c);
    case DataSomeValuesFrom(dp, dr) =>
      assert RenderIri(g1, dp) == RenderIri(g2, dp);
      DataRangeAgree(g1, g2, dr);
    case DataAllValuesFrom(dp, dr) =>
      assert RenderIri(g1, dp) == RenderIri(g2, dp);
      DataRangeAgree(g1, g2, dr);
    case DataHasValue(dp, l) =>
      assert RenderIri(g1, dp) == RenderIri(g2, dp);
      LiteralAgree(g1, g2, l);
    case DataMinCardinality(_, dp, dr) =>
      assert RenderIri(g1, dp) == RenderIri(g2, dp);
      DataRangeAgree(g1, g2, dr);
    case DataMaxCardinality(_, dp, dr) =>
      assert RenderIri(g1, dp) == RenderIri(g2, dp);
      DataRangeAgree(g1, g2, dr);
    case DataExactCardinality(_, dp, dr) =>
      assert RenderIri(g1, dp) == RenderIri(g2, dp);
      DataRangeAgree(g1, g2, dr);
  }

  lemma {:induction false} ClassExpressionsAgree(g1: Generation, g2: Generation, cs: seq<ClassExpression>)
    requires SameIris(g1, g2) && ClassExpressionsOk(g1, cs) && ClassExpressionsOk(g2, cs)
    requires KeywordsAgree(g1, g2, ClassExpressionsUseOneOf(cs))
    ensures RenderClassExpressions(g1, cs) == RenderClassExpressions(g2, cs)
    decreases cs
  {
    forall k | 0 <= k < |cs|
      ensures RenderClassExpressions(g1, cs)[k] == RenderClassExpressions(g2, cs)[k]
    {
      ClassExpressionAgree(g1, g2, cs[k]);
    }
  }

  lemma AnnotationsAgree(g1: Generation, g2: Generation, anns: seq<Annotation>)
    requires SameIris(g1, g2)
    ensures RenderAnnotations(g1, anns) == RenderAnnotations(g2, anns)
  {
    forall k | 0 <= k < |anns| ensures RenderAnnotations(g1, anns)[k] == RenderAnnotations(g2, anns)[k] {
      var a := anns[k];
      assert RenderIri(g1, a.ap) == RenderIri(g2, a.ap);
      if a.av.LiteralValue? {
        LiteralAgree(g1, g2, a.av.literal);
      } else {
        assert RenderIri(g1, a.av.iri) == RenderIri(g2, a.av.iri);
      }
    }
  }

  lemma PropertiesAgree(g1: Generation, g2: Generation, pes: seq<PropertyExpression>)
    requires SameIris(g1, g2)
    ensures RenderProperties(g1, pes) == RenderProperties(g2, pes)
  {
    forall k | 0 <= k < |pes| ensures RenderProperties(g1, pes)[k] == RenderProperties(g2, pes)[k] {
      match pes[k]
      case ObjectPropertyExpr(ope) => OpeAgree(g1, g2, ope);
      case DataProperty(dp) => assert RenderIri(g1, dp) == RenderIri(g2, dp);
    }
  }

  /** The templated shapes about classes and object properties. */
  predicate ClassOrObjectAxiom(ax: Axiom)
  {
    ax.Import? || ax.SubClassOf? || ax.EquivalentClasses? || ax.DisjointClasses? || ax.DisjointUnion?
    || ax.SubObjectPropertyOf? || ax.EquivalentObjectProperties? || ax.DisjointObjectProperties?
    || ax.InverseObjectProperties? || ax.ObjectPropertyDomain? || ax.ObjectPropertyRange?
    || ax.ObjectPropertyCharacteristic?
  }

  lemma {:induction false} OperandsAgree(g1: Generation, g2: Generation, ax: Axiom)
    requires IsTemplated(ax) && SameIris(g1, g2) && AxiomOk(g1, ax) && AxiomOk(g2, ax)
    requires KeywordsAgree(g1, g2, AxiomUsesOneOf(ax))
    ensures Operands(g1, ax) == Operands(g2, ax)
  {
    if ClassOrObjectAxiom(ax) {
      ClassOrObjectOperandsAgree(g1, g2, ax);
    } else {
      OtherOperandsAgree(g1, g2, ax);
    }
  }

  lemma {:induction false} ClassOrObjectOperandsAgree(g1: Generation, g2: Generation, ax: Axiom)
    requires IsTemplated(ax) && SameIris(g1, g2) && AxiomOk(g1, ax) && AxiomOk(g2, ax)
    requires KeywordsAgree(g1, g2, AxiomUsesOneOf(ax))
    requires ClassOrObjectAxiom(ax)
    ensures Operands(g1, ax) == Operands(g2, ax)
  {
    match ax
    case Import(iri) =>
      assert RenderIri(g1, iri) == RenderIri(g2, iri);
    case SubClassOf(a, b) =>
      ClassExpressionAgree(g1, g2, a);
      ClassExpressionAgree(g1, g2, b);
    case EquivalentClasses(cs) => ClassExpressionsAgree(g1, g2, cs);
    case DisjointClasses(cs) => ClassExpressionsAgree(g1, g2, cs);
    case DisjointUnion(c, cs) =>
      assert RenderIri(g1, c) == RenderIri(g2, c);
      ClassExpressionsAgree(g1, g2, cs);
    case SubObjectPropertyOf(sub, sup) =>
      OpeAgree(g1, g2, sup);
      if sub.SubProperty? {
        OpeAgree(g1, g2, sub.ope);
      } else {
        OpesAgree(g1, g2, sub.chain);
      }
    case EquivalentObjectProperties(opes) => OpesAgree(g1, g2, opes);
    case DisjointObjectProperties(opes) => OpesAgree(g1, g2, opes);
    case InverseObjectProperties(a, b) =>
      assert RenderIri(g1, a) == RenderIri(g2, a);
      assert RenderIri(g1, b) == RenderIri(g2, b);
    case ObjectPropertyDomain(ope, ce) =>
      OpeAgree(g1, g2, ope);
      ClassExpressionAgree(g1, g2, ce);
    case ObjectPropertyRange(ope, ce) =>
      OpeAgree(g1, g2, ope);
      ClassExpressionAgree(g1, g2, ce);
    case ObjectPropertyCharacteristic(_, ope) => OpeAgree(g1, g2, ope);
    case _ =>
  }

  lemma {:induction false} OtherOperandsAgree(g1: Generation, g2: Generation, ax: Axiom)
    requires IsTemplated(ax) && SameIris(g1, g2) && AxiomOk(g1, ax) && AxiomOk(g2, ax)
    requires KeywordsAgree(g1, g2, AxiomUsesOneOf(ax))
    requires !ClassOrObjectAxiom(ax)
    ensures Operands(g1, ax) == Operands(g2, ax)
  {
    match ax
    case SubDataPropertyOf(a, b) =>
      assert RenderIri(g1, a) == RenderIri(g2, a);
      assert RenderIri(g1, b) == RenderIri(g2, b);
    case EquivalentDataProperties(dps) => IrisAgree(g1, g2, dps);
    case DisjointDataProperties(dps) => IrisAgree(g1, g2, dps);
    case DataPropertyDomain(dp, ce) =>
      assert RenderIri(g1, dp) == RenderIri(g2, dp);
      ClassExpressionAgree(g1, g2, ce);
    case DataPropertyRange(dp, dr) =>
      assert RenderIri(g1, dp) == RenderIri(g2, dp);
      DataRangeAgree(g1, g2, dr);
    case FunctionalDataProperty(dp) =>
      assert RenderIri(g1, dp) == RenderIri(g2, dp);
    case DatatypeDefinition(dt, dr) =>
      assert RenderIri(g1, dt) == RenderIri(g2, dt);
      DataRangeAgree(g1, g2, dr);
    case SameIndividual(inds) => IndividualsAgree(g1, g2, inds);
    case DifferentIndividuals(inds) => IndividualsAgree(g1, g2, inds);
    case ClassAssertion(ce, i) =>
      ClassExpressionAgree(g1, g2, ce);
      assert RenderIri(g1, i.iri) == RenderIri(g2, i.iri);
    case ObjectPropertyAssertion(ope, a, b) =>
      OpeAgree(g1, g2, ope);
      assert RenderIri(g1, a.iri) == RenderIri(g2, a.iri);
      assert RenderIri(g1, b.iri) == RenderIri(g2, b.iri);
    case NegativeObjectPropertyAssertion(ope, a, b) =>
      OpeAgree(g1, g2, ope);
      assert RenderIri(g1, a.iri) == RenderIri(g2, a.iri);
      assert RenderIri(g1, b.iri) == RenderIri(g2, b.iri);
    case DataPropertyAssertion(dp, a, l) =>
      assert RenderIri(g1, dp) == RenderIri(g2, dp);
      assert RenderIri(g1, a.iri) == RenderIri(g2, a.iri);
      LiteralAgree(g1, g2, l);
    case NegativeDataPropertyAssertion(dp, a, l) =>
      assert RenderIri(g1, dp) == RenderIri(g2, dp);
      assert RenderIri(g1, a.iri) == RenderIri(g2, a.iri);
      LiteralAgree(g1, g2, l);
    case SubAnnotationPropertyOf(a, b) =>
      assert RenderIri(g1, a) == RenderIri(g2, a);
      assert RenderIri(g1, b) == RenderIri(g2, b);
    case AnnotationPropertyDomain(ap, iri) =>
      assert RenderIri(g1, ap) == RenderIri(g2, ap);
      assert RenderIri(g1, iri) == RenderIri(g2, iri);
    case AnnotationPropertyRange(ap, iri) =>
      assert RenderIri(g1, ap) == RenderIri(g2, ap);
      assert RenderIri(g1, iri) == RenderIri(g2, iri);
    case _ =>
  }

  /** The annotations a generation actually writes for an axiom given `ann`. */
  function Slot(g: Generation, ann: Option<seq<Annotation>>): Option<seq<Annotation>>
  {
    if g.Contextual? then ann else None
  }

  /**
   * Two generations that write IRIs alike write an axiom alike, provided
   * they agree on the enumeration keyword where one occurs, on the key
   * spacing where the axiom is a key, and on the annotations written.
   */
  lemma {:induction false} AxiomAgree(g1: Generation, g2: Generation, ax: Axiom,
                                      ann1: Option<seq<Annotation>>, ann2: Option<seq<Annotation>>)
    requires SameIris(g1, g2) && AxiomOk(g1, ax) && AxiomOk(g2, ax)
    requires KeywordsAgree(g1, g2, AxiomUsesOneOf(ax) || ax.HasKey?)
    requires Slot(g1, ann1) == Slot(g2, ann2)
    ensures RenderAxiom(g1, ax, ann1) == RenderAxiom(g2, ax, ann2)
  {
    if ax.Declare? {
      assert RenderIri(g1, ax.entity) == RenderIri(g2, ax.entity);
    } else if ax.OntologyAnnotation? || ax.AnnotationAssertion? {
      AnnotationAxiomAgree(g1, g2, ax, ann1, ann2);
    } else if ax.HasKey? {
      HasKeyAgree(g1, g2, ax.ce, ax.vpe);
    } else {
      TemplatedAgree(g1, g2, ax, ann1, ann2);
    }
  }

  lemma AnnotationAxiomAgree(g1: Generation, g2: Generation, ax: Axiom, ann1: Option<seq<Annotation>>, ann2: Option<seq<Annotation>>)
    requires ax.OntologyAnnotation? || ax.AnnotationAssertion?
    requires SameIris(g1, g2)
    ensures AxiomOk(g1, ax) && AxiomOk(g2, ax)
    ensures RenderAxiom(g1, ax, ann1) == RenderAxiom(g2, ax, ann2)
  {
    var a := ax.annotation;
    assert RenderIri(g1, a.ap) == RenderIri(g2, a.ap);
    if a.av.LiteralValue? {
      LiteralAgree(g1, g2, a.av.literal);
    } else {
      assert RenderIri(g1, a.av.iri) == RenderIri(g2, a.av.iri);
    }
    if ax.AnnotationAssertion? {
      assert RenderIri(g1, ax.subject) == RenderIri(g2, ax.subject);
    }
  }

  lemma HasKeyAgree(g1: Generation, g2: Generation, ce: ClassExpression, vpe: seq<PropertyExpression>)
    requires SameIris(g1, g2) && ClassExpressionOk(g1, ce) && ClassExpressionOk(g2, ce)
    requires g1.Contextual? == g2.Contextual?
    ensures RenderHasKey(g1, ce, vpe) == RenderHasKey(g2, ce, vpe)
  {
    ClassExpressionAgree(g1, g2, ce);
    KeyGroupsAgree(g1, g2, vpe);
  }

  lemma KeyGroupsAgree(g1: Generation, g2: Generation, vpe: seq<PropertyExpression>)
    requires SameIris(g1, g2)
    ensures KeyGroups(g1, vpe) == KeyGroups(g2, vpe)
  {
    PropertiesAgree(g1, g2, KeyGroup(vpe, true));
    PropertiesAgree(g1, g2, KeyGroup(vpe, false));
  }

  lemma TemplatedAgree(g1: Generation, g2: Generation, ax: Axiom,
                       ann1: Option<seq<Annotation>>, ann2: Option<seq<Annotation>>)
    requires IsTemplated(ax) && SameIris(g1, g2) && AxiomOk(g1, ax) && AxiomOk(g2, ax)
    requires KeywordsAgree(g1, g2, AxiomUsesOneOf(ax))
    requires Slot(g1, ann1) == Slot(g2, ann2)
    ensures RenderAxiom(g1, ax, ann1) == RenderAxiom(g2, ax, ann2)
  {
    OperandsAgree(g1, g2, ax);
    if g1.Contextual? && ann1.Some? {
      AnnotationsAgree(g1, g2, ann1.value);
    }
  }

  lemma {:induction false} DataRangeOkWidens(ctx: Context, dr: DataRange)
    requires DataRangeOk(ContextFree, dr)
    ensures DataRangeOk(Contextual(ctx), dr)
    decreases dr
  {
    match dr
    case DataIntersectionOf(rs) =>
      forall k | 0 <= k < |rs| ensures DataRangeOk(Contextual(ctx), rs[k]) {
        DataRangeOkWidens(ctx, rs[k]);
      }
    case DataUnionOf(rs) =>
      forall k | 0 <= k < |rs| ensures DataRangeOk(Contextual(ctx), rs[k]) {
        DataRangeOkWidens(ctx, rs[k]);
      }
    case DataComplementOf(r) =>
      DataRangeOkWidens(ctx, r);
    case _ =>
  }

  /** Whatever the context-free generation can write, the contextual one can too. */
  lemma {:induction false} ClassExpressionOkWidens(ctx: Context, ce: ClassExpression)
    requires ClassExpressionOk(ContextFree, ce)
    ensures ClassExpressionOk(Contextual(ctx), ce)
    decreases ce
  {
    match ce
    case ObjectIntersectionOf(cs) =>
      forall k | 0 <= k < |cs| ensures ClassExpressionOk(Contextual(ctx), cs[k]) {
        ClassExpressionOkWidens(ctx, cs[k]);
      }
    case ObjectUnionOf(cs) =>
      forall k | 0 <= k < |cs| ensures ClassExpressionOk(Contextual(ctx), cs[k]) {
        ClassExpressionOkWidens(ctx, cs[k]);
      }
    case ObjectComplementOf(c) => ClassExpressionOkWidens(ctx, c);
    case ObjectSomeValuesFrom(_, c) => ClassExpressionOkWidens(ctx, c);
    case ObjectAllValuesFrom(_, c) => ClassExpressionOkWidens(ctx, c);
    case ObjectMinCardinality(_, _, c) => ClassExpressionOkWidens(ctx, c);
    case ObjectMaxCardinality(_, _, c) => ClassExpressionOkWidens(ctx, c);
    case ObjectExactCardinality(_, _, c) => ClassExpressionOkWidens(ctx, c);
    case DataSomeValuesFrom(_, dr) => DataRangeOkWidens(ctx, dr);
    case DataAllValuesFrom(_, dr) => DataRangeOkWidens(ctx, dr);
    case DataMinCardinality(_, _, dr) => DataRangeOkWidens(ctx, dr);
    case DataMaxCardinality(_, _, dr) => DataRangeOkWidens(ctx, dr);
    case DataExactCardinality(_, _, dr) => DataRangeOkWidens(ctx, dr);
    case _ =>
  }
}
