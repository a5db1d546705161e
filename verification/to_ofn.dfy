/**
 * The context-free generation of the renderer and how it relates to the
 * contextual one: without a prefix table the two write the same text,
 * except for the enumeration keyword, the spacing of keys and the
 * annotation slot.
 */
module ToOfn {
  import opened Wrappers
  import opened Text
  import opened Owl
  import opened Render

  /** Without a prefix table both generations write every IRI in full. */
  lemma FullIrisAlike()
    ensures SameIris(ContextFree, Contextual(NoContext))
  {
  }

  lemma {:induction false} AxiomOkWidens(ctx: Context, ax: Axiom)
    requires AxiomOk(ContextFree, ax)
    ensures AxiomOk(Contextual(ctx), ax)
  {
    match ax
    case SubClassOf(a, b) =>
      ClassExpressionOkWidens(ctx, a);
      ClassExpressionOkWidens(ctx, b);
    case EquivalentClasses(cs) => ClassExpressionsOkWiden(ctx, cs);
    case DisjointClasses(cs) => ClassExpressionsOkWiden(ctx, cs);
    case DisjointUnion(_, cs) => ClassExpressionsOkWiden(ctx, cs);
    case ObjectPropertyDomain(_, ce) => ClassExpressionOkWidens(ctx, ce);
    case ObjectPropertyRange(_, ce) => ClassExpressionOkWidens(ctx, ce);
    case DataPropertyDomain(_, ce) => ClassExpressionOkWidens(ctx, ce);
    case DataPropertyRange(_, dr) => DataRangeOkWidens(ctx, dr);
    case DatatypeDefinition(_, dr) => DataRangeOkWidens(ctx, dr);
    case HasKey(ce, _) => ClassExpressionOkWidens(ctx, ce);
    case _ =>
  }

  lemma ClassExpressionsOkWiden(ctx: Context, cs: seq<ClassExpression>)
    requires ClassExpressionsOk(ContextFree, cs)
    ensures ClassExpressionsOk(Contextual(ctx), cs)
  {
    forall k | 0 <= k < |cs| ensures ClassExpressionOk(Contextual(ctx), cs[k]) {
      ClassExpressionOkWidens(ctx, cs[k]);
    }
  }

  /**
   * A class expression the context-free generation can write, and that
   * enumerates no literals, is written exactly as the contextual
   * generation writes it without a prefix table.
   */
  lemma ClassExpressionMatchesContextual(ce: ClassExpression)
    requires ClassExpressionOk(ContextFree, ce) && !ClassExpressionUsesOneOf(ce)
    ensures ClassExpressionOk(Contextual(NoContext), ce)
    ensures RenderClassExpression(ContextFree, ce) == RenderClassExpression(Contextual(NoContext), ce)
  {
    ClassExpressionOkWidens(NoContext, ce);
    ClassExpressionAgree(ContextFree, Contextual(NoContext), ce);
  }

  /**
   * The same for axioms other than keys: the context-free text is the
   * contextual text of the axiom with no annotation slot.
   */
  lemma AxiomMatchesContextual(ax: Axiom, ann: Option<seq<Annotation>>)
    requires AxiomOk(ContextFree, ax) && !AxiomUsesOneOf(ax) && !ax.HasKey?
    ensures AxiomOk(Contextual(NoContext), ax)
    ensures RenderAxiom(ContextFree, ax, ann) == RenderAxiom(Contextual(NoContext), ax, None)
  {
    AxiomOkWidens(NoContext, ax);
    AxiomAgree(ContextFree, Contextual(NoContext), ax, ann, None);
  }

  /**
   * A key is written with a space after its class expression by the
   * contextual generation and without one by the context-free generation.
   */
  lemma HasKeySpacing(ce: ClassExpression, vpe: seq<PropertyExpression>)
    requires ClassExpressionOk(ContextFree, ce) && !ClassExpressionUsesOneOf(ce)
    ensures ClassExpressionOk(Contextual(NoContext), ce)
    ensures var free := RenderHasKey(ContextFree, ce, vpe);
            var n := |"HasKey("| + |RenderClassExpression(ContextFree, ce)|;
            n <= |free| &&
            RenderHasKey(Contextual(NoContext), ce, vpe) == free[..n] + " " + free[n..]
  {
    ClassExpressionMatchesContextual(ce);
    FullIrisAlike();
    KeyGroupsAgree(ContextFree, Contextual(NoContext), vpe);
    InsertSpace("HasKey(" + RenderClassExpression(ContextFree, ce), KeyGroups(ContextFree, vpe));
  }

  lemma InsertSpace(head: string, tail: string)
    ensures var s := head + "" + tail;
            |head| <= |s| && head + " " + tail == s[..|head|] + " " + s[|head|..]
  {
    var s := head + "" + tail;
    assert s[..|head|] == head;
    assert s[|head|..] == tail;
  }

  /**
   * An enumeration of literals is written under `DataOneOf` by the
   * context-free generation and under `DataUnionOf` by the contextual one,
   * with the same members.
   */
  lemma OneOfKeywords(ls: seq<Literal>)
    ensures var free := RenderDataRange(ContextFree, DataOneOf(ls));
            var contextual := RenderDataRange(Contextual(NoContext), DataOneOf(ls));
            |"DataOneOf"| <= |free| && |"DataUnionOf"| <= |contextual| &&
            free[..|"DataOneOf"|] == "DataOneOf" && contextual[..|"DataUnionOf"|] == "DataUnionOf" &&
            free[|"DataOneOf"|..] == contextual[|"DataUnionOf"|..]
  {
    FullIrisAlike();
    LiteralsAgree(ContextFree, Contextual(NoContext), ls);
    OneOfShape(ContextFree, ls);
    OneOfShape(Contextual(NoContext), ls);
    var members := "(" + Join(RenderLiterals(ContextFree, ls)) + ")";
    KeywordThenRest("DataOneOf", members);
    KeywordThenRest("DataUnionOf", members);
  }

  lemma KeywordThenRest(keyword: string, rest: string)
    ensures (keyword + rest)[..|keyword|] == keyword && (keyword + rest)[|keyword|..] == rest
  {
  }
}
