/**
 * The converter from parse trees to model values. Every conversion takes a
 * node of the shape the grammar produces for its rule, and the prefix table
 * against which abbreviated IRIs are expanded. The shape predicates state
 * what the grammar guarantees about each node; the converter relies on
 * them instead of checking them.
 */
module FromPair {
  import opened Wrappers
  import opened Text
  import opened Owl
  import opened Curie
  import opened ParseTree
  import opened Errors
  import opened Quoting
  import Render

  // ---------------------------------------------------------------------
  // Quoted strings
  // ---------------------------------------------------------------------

  /** The text of a quoted string, without its quotes and with both escapes undone. */
  function StringFromPair(p: Pair): (r: Result<string, Error>)
    requires |p.text| >= 2
    ensures r.Ok?
  {
    Ok(Unescape(p.text))
  }

  /** The node the grammar produces for a quoted string. */
  function QuotedTree(s: string): (t: Pair)
    ensures t.text == Quoted(s)
  {
    Pair(QuotedString, Quoted(s), [])
  }

  /** Reading back a written quoted string gives the original text. */
  lemma StringRoundTrip(s: string)
    ensures StringFromPair(QuotedTree(s)) == Ok(s)
  {
    UnescapeQuoted(s);
  }

  // ---------------------------------------------------------------------
  // IRIs
  // ---------------------------------------------------------------------

  /**
   * An `IRI` node wraps an abbreviated or a full IRI. An abbreviated IRI
   * holds a prefixed name, whose first child is the prefix (itself holding
   * the prefix name unless it is the empty prefix) and whose second child
   * is the local part. A full IRI holds the text between the brackets.
   */
  predicate IriShaped(p: Pair)
    decreases p
  {
    match p.rule
    case IRI => |p.inner| >= 1 && (p.inner[0].rule.AbbreviatedIRI? || p.inner[0].rule.FullIRI?) && IriShaped(p.inner[0])
    case AbbreviatedIRI => |p.inner| >= 1 && |p.inner[0].inner| >= 2
    case FullIRI => |p.inner| >= 1
    case _ => false
  }

  /** The compact IRI an abbreviated IRI node spells. */
  function CurieOf(p: Pair): Curie
    requires p.rule.AbbreviatedIRI? && IriShaped(p)
  {
    var pname := p.inner[0].inner;
    var prefix := if |pname[0].inner| > 0 then Some(pname[0].inner[0].text) else None;
    Curie(prefix, pname[1].text)
  }

  function IriFromPair(p: Pair, pm: PrefixMapping): (r: Result<Iri, Error>)
    requires IriShaped(p)
    ensures r.Err? ==> r.error.Expansion?
    ensures p.rule.FullIRI? ==> r == Ok(Iri(p.inner[0].text))
    ensures p.rule.AbbreviatedIRI? ==>
      (r.Ok? <==> ExpandCurie(pm, CurieOf(p)).Ok?) &&
      (r.Ok? ==> r.value.text == ExpandCurie(pm, CurieOf(p)).value) &&
      (r.Err? ==> r.error.expansion == ExpandCurie(pm, CurieOf(p)).error)
    decreases p
  {
    match p.rule
    case IRI => IriFromPair(p.inner[0], pm)
    case AbbreviatedIRI =>
      (match ExpandCurie(pm, CurieOf(p))
       case Ok(iri) => Ok(Iri(iri))
       case Err(e) => Err(FromExpansion(e)))
    case FullIRI => Ok(Iri(p.inner[0].text))
  }

  /** The tree of an IRI written in full, between angle brackets. */
  function FullIriTree(iri: Iri): (t: Pair)
    ensures t.rule.IRI? && IriShaped(t) && t.text == Render.Bracketed(iri)
  {
    var text := Render.Bracketed(iri);
    Pair(IRI, text, [Pair(FullIRI, text, [Token("IRIREF", iri.text)])])
  }

  /** The tree of `prefix:local`, or `:local` for the empty prefix. */
  function AbbreviatedIriTree(prefix: Option<string>, local: string): (t: Pair)
    ensures t.rule.IRI? && IriShaped(t) && t.inner[0].rule.AbbreviatedIRI?
    ensures CurieOf(t.inner[0]) == Curie(prefix, local)
  {
    var name := match prefix case Some(n) => n case None => "";
    var ns := Pair(Other("PNAME_NS"), name + ":", match prefix case Some(n) => [Token("PN_PREFIX", n)] case None => []);
    var text := name + ":" + local;
    Pair(IRI, text, [Pair(AbbreviatedIRI, text, [Pair(Other("PNAME_LN"), text, [ns, Token("PN_LOCAL", local)])])])
  }

  /** A full IRI is read back verbatim, whatever the prefix table. */
  lemma FullIriRoundTrip(iri: Iri, pm: PrefixMapping)
    ensures IriFromPair(FullIriTree(iri), pm) == Ok(iri)
  {
  }

  /**
   * An abbreviated IRI expands against its prefix's namespace, and fails
   * with an expansion error when the prefix is unbound: there is no
   * fallback to the unexpanded text.
   */
  lemma {:induction false} AbbreviatedIriExpands(pm: PrefixMapping, prefix: Option<string>, local: string)
    ensures var r := IriFromPair(AbbreviatedIriTree(prefix, local), pm);
            match ExpandCurie(pm, Curie(prefix, local))
            case Ok(ns) => r == Ok(Iri(ns))
            case Err(e) => r == Err(Expansion(e))
  {
    var t := AbbreviatedIriTree(prefix, local);
    assert IriFromPair(t, pm) == IriFromPair(t.inner[0], pm);
  }

  /** With `ex` bound, `ex:ref` expands to the bound namespace followed by `ref`. */
  lemma BoundPrefixExample()
    ensures var pm := AddPrefix(Empty, "ex", "http://example.com/path#").value;
            IriFromPair(AbbreviatedIriTree(Some("ex"), "ref"), pm) == Ok(Iri("http://example.com/path#ref"))
  {
    var pm := AddPrefix(Empty, "ex", "http://example.com/path#").value;
    AbbreviatedIriExpands(pm, Some("ex"), "ref");
    assert Lookup(pm.mapping, "ex") == Some("http://example.com/path#");
    assert ExpandCurie(pm, Curie(Some("ex"), "ref")) == Ok("http://example.com/path#" + "ref");
    assert "http://example.com/path#" + "ref" == "http://example.com/path#ref";
  }

  /** With no table at all, `example:Entity` fails to expand. */
  lemma UnboundPrefixExample()
    ensures IriFromPair(AbbreviatedIriTree(Some("example"), "Entity"), Empty) == Err(Expansion(Invalid))
  {
    AbbreviatedIriExpands(Empty, Some("example"), "Entity");
  }

  // ---------------------------------------------------------------------
  // Literals
  // ---------------------------------------------------------------------

  /**
   * The converter's literal: a lexical form, an optional datatype and an
   * optional language tag.
   */
  datatype ParsedLiteral = ParsedLiteral(literal: Option<string>, datatypeIri: Option<Iri>, lang: Option<string>)

  /** A lexical form, and at most one of a datatype and a language tag. */
  predicate WellFormed(pl: ParsedLiteral)
  {
    pl.literal.Some? && !(pl.datatypeIri.Some? && pl.lang.Some?)
  }

  function AsLiteral(pl: ParsedLiteral): (l: Literal)
    requires WellFormed(pl)
    ensures l.literal == pl.literal.value
  {
    if pl.lang.Some? then LanguageLiteral(pl.literal.value, pl.lang.value)
    else if pl.datatypeIri.Some? then DatatypeLiteral(pl.literal.value, pl.datatypeIri.value)
    else SimpleLiteral(pl.literal.value)
  }

  function FromLiteral(l: Literal): (pl: ParsedLiteral)
    ensures WellFormed(pl) && pl.literal == Some(l.literal)
  {
    match l
    case SimpleLiteral(s) => ParsedLiteral(Some(s), None, None)
    case LanguageLiteral(s, lang) => ParsedLiteral(Some(s), None, Some(lang))
    case DatatypeLiteral(s, dt) => ParsedLiteral(Some(s), Some(dt), None)
  }

  /** The two literal representations correspond one to one. */
  lemma LiteralCorrespondence(l: Literal, pl: ParsedLiteral)
    ensures AsLiteral(FromLiteral(l)) == l
    ensures WellFormed(pl) ==> FromLiteral(AsLiteral(pl)) == pl
  {
  }

  predicate LiteralShaped(p: Pair)
    decreases p
  {
    match p.rule
    case Literal => |p.inner| >= 1 && LiteralShaped(p.inner[0])
    case TypedLiteral => |p.inner| >= 2 && |p.inner[0].text| >= 2 && IriShaped(p.inner[1])
    case StringLiteralWithLanguage => |p.inner| >= 2 && |p.inner[0].text| >= 2 && |p.inner[1].text| >= 1
    case StringLiteralNoLanguage => |p.inner| >= 1 && |p.inner[0].text| >= 2
    case _ => false
  }

  /**
   * A typed literal carries its datatype, a literal with a language its
   * tag (the token after `@`, trimmed), and a plain literal neither.
   */
  function LiteralFromPair(p: Pair, pm: PrefixMapping): (r: Result<ParsedLiteral, Error>)
    requires LiteralShaped(p)
    ensures r.Ok? ==> WellFormed(r.value)
    ensures r.Ok? && r.value.lang.Some? ==> Trim(r.value.lang.value) == r.value.lang.value
    ensures r.Err? ==> r.error.Expansion?
    ensures p.rule.TypedLiteral? ==>
              (r.Ok? <==> IriFromPair(p.inner[1], pm).Ok?) &&
              (r.Ok? ==> r.value == ParsedLiteral(Some(Unescape(p.inner[0].text)), Some(IriFromPair(p.inner[1], pm).value), None)) &&
              (r.Err? ==> r.error == IriFromPair(p.inner[1], pm).error)
    ensures p.rule.StringLiteralWithLanguage? ==>
              r == Ok(ParsedLiteral(Some(Unescape(p.inner[0].text)), None, Some(Trim(p.inner[1].text[1..]))))
    ensures p.rule.StringLiteralNoLanguage? ==> r == Ok(ParsedLiteral(Some(Unescape(p.inner[0].text)), None, None))
    decreases p
  {
    match p.rule
    case Literal => LiteralFromPair(p.inner[0], pm)
    case TypedLiteral =>
      var lit := StringFromPair(p.inner[0]).value;
      var dty :- IriFromPair(p.inner[1], pm);
      Ok(ParsedLiteral(Some(lit), Some(dty), None))
    case StringLiteralWithLanguage =>
      var lit := StringFromPair(p.inner[0]).value;
      var lang := Trim(p.inner[1].text[1..]);
      TrimTrimmed(lang);
      Ok(ParsedLiteral(Some(lit), None, Some(lang)))
    case StringLiteralNoLanguage =>
      var lit := StringFromPair(p.inner[0]).value;
      Ok(ParsedLiteral(Some(lit), None, None))
  }

  /**
   * The tree of a literal written by the context-free generation; its text
   * is that rendering.
   */
  function LiteralTree(l: Literal): (t: Pair)
    ensures t.rule.Literal? && LiteralShaped(t)
    ensures t.text == Render.RenderLiteral(Render.ContextFree, l)
  {
    match l
    case SimpleLiteral(s) =>
      var text := Quoted(s);
      Pair(Literal, text, [Pair(StringLiteralNoLanguage, text, [QuotedTree(s)])])
    case LanguageLiteral(s, lang) =>
      var text := Quoted(s) + "@" + lang;
      Pair(Literal, text, [Pair(StringLiteralWithLanguage, text, [QuotedTree(s), Token("LANGTAG", "@" + lang)])])
    case DatatypeLiteral(s, dt) =>
      var text := Quoted(s) + "^^" + Render.Bracketed(dt);
      Pair(Literal, text, [Pair(TypedLiteral, text, [QuotedTree(s), FullIriTree(dt)])])
  }

  /** A language tag that survives the trimming the converter applies. */
  predicate TagTrimmed(l: Literal)
  {
    l.LanguageLiteral? ==> Trim(l.lang) == l.lang
  }

  /**
   * A literal written without a prefix table is read back as itself,
   * provided its language tag has no surrounding white space.
   */
  lemma LiteralRoundTrip(l: Literal, pm: PrefixMapping)
    requires TagTrimmed(l)
    ensures LiteralFromPair(LiteralTree(l), pm) == Ok(FromLiteral(l))
  {
    StringRoundTrip(l.literal);
    var t := LiteralTree(l);
    assert LiteralFromPair(t, pm) == LiteralFromPair(t.inner[0], pm);
    if l.LanguageLiteral? {
      assert ("@" + l.lang)[1..] == l.lang;
    }
  }

  /**
   * The language tag is the token after `@` with surrounding white space
   * removed, so a tag written with padding is read back trimmed.
   */
  lemma LanguageTagTrimmed(s: string, tag: string, pm: PrefixMapping)
    ensures LiteralFromPair(LiteralTree(LanguageLiteral(s, tag)), pm) == Ok(ParsedLiteral(Some(s), None, Some(Trim(tag))))
  {
    StringRoundTrip(s);
    var t := LiteralTree(LanguageLiteral(s, tag));
    assert LiteralFromPair(t, pm) == LiteralFromPair(t.inner[0], pm);
    assert ("@" + tag)[1..] == tag;
  }

  // ---------------------------------------------------------------------
  // Annotations
  // ---------------------------------------------------------------------

  predicate AnnotationPropertyShaped(p: Pair)
  {
    |p.inner| >= 1 && p.inner[0].rule.IRI? && IriShaped(p.inner[0])
  }

  /**
   * An annotation value holds an IRI or a literal. Anonymous individuals
   * are not converted.
   */
  predicate AnnotationValueShaped(p: Pair)
  {
    |p.inner| >= 1 &&
    ((p.inner[0].rule.IRI? && IriShaped(p.inner[0])) || (p.inner[0].rule.Literal? && LiteralShaped(p.inner[0])))
  }

  /**
   * An annotation holds its own annotations (the meta-annotations), its
   * property and its value.
   */
  predicate AnnotationShaped(p: Pair)
    decreases p, 1
  {
    |p.inner| >= 3 && AnnotationsShaped(p.inner[0].inner) &&
    AnnotationPropertyShaped(p.inner[1]) && AnnotationValueShaped(p.inner[2])
  }

  predicate AnnotationsShaped(ps: seq<Pair>)
    decreases ps, 0
  {
    forall k :: 0 <= k < |ps| ==> AnnotationShaped(ps[k])
  }

  function AnnotationPropertyFromPair(p: Pair, pm: PrefixMapping): (r: Result<Iri, Error>)
    requires AnnotationPropertyShaped(p)
    ensures r.Err? ==> r.error.Expansion?
  {
    IriFromPair(p.inner[0], pm)
  }

  function AnnotationValueFromPair(p: Pair, pm: PrefixMapping): (r: Result<AnnotationValue, Error>)
    requires AnnotationValueShaped(p)
    ensures r.Err? ==> r.error.Expansion?
    ensures r.Ok? ==> (r.value.IriValue? <==> p.inner[0].rule.IRI?)
    ensures p.inner[0].rule.IRI? ==>
              (r.Ok? <==> IriFromPair(p.inner[0], pm).Ok?) &&
              (r.Ok? ==> r.value == IriValue(IriFromPair(p.inner[0], pm).value)) &&
              (r.Err? ==> r.error == IriFromPair(p.inner[0], pm).error)
    ensures !p.inner[0].rule.IRI? ==>
              (r.Ok? <==> LiteralFromPair(p.inner[0], pm).Ok?) &&
              (r.Ok? ==> r.value == LiteralValue(AsLiteral(LiteralFromPair(p.inner[0], pm).value))) &&
              (r.Err? ==> r.error == LiteralFromPair(p.inner[0], pm).error)
  {
    if p.inner[0].rule.IRI? then
      var iri :- IriFromPair(p.inner[0], pm);
      Ok(IriValue(iri))
    else
      var pl :- LiteralFromPair(p.inner[0], pm);
      Ok(LiteralValue(AsLiteral(pl)))
  }

  /**
   * Meta-annotations are converted, in order, so that their errors
   * surface, and then dropped: the annotation holds only its property and
   * its value.
   */
  function AnnotationFromPair(p: Pair, pm: PrefixMapping): (r: Result<Annotation, Error>)
    requires AnnotationShaped(p)
    ensures r.Err? ==> r.error.Expansion?
    ensures r.Ok? ==> MetaAnnotationsFromPairs(p.inner[0].inner, pm).Ok?
    decreases p, 1
  {
    var meta :- MetaAnnotationsFromPairs(p.inner[0].inner, pm);
    var ap :- AnnotationPropertyFromPair(p.inner[1], pm);
    var av :- AnnotationValueFromPair(p.inner[2], pm);
    Ok(Owl.Annotation(ap, av))
  }

  /** The annotations of a sequence of nodes, stopping at the first error. */
  function MetaAnnotationsFromPairs(ps: seq<Pair>, pm: PrefixMapping): (r: Result<seq<Annotation>, Error>)
    requires AnnotationsShaped(ps)
    ensures r.Ok? ==> |r.value| == |ps|
    ensures r.Err? ==> r.error.Expansion?
    decreases ps, 0
  {
    if |ps| == 0 then Ok([])
    else
      match AnnotationFromPair(ps[0], pm)
      case Err(e) => Err(e)
      case Ok(a) =>
        match MetaAnnotationsFromPairs(ps[1..], pm)
        case Err(e) => Err(e)
        case Ok(rest) => Ok([a] + rest)
  }

  /** The sequence converts exactly when every node does. */
  lemma {:induction false} MetaAnnotationsOk(ps: seq<Pair>, pm: PrefixMapping)
    requires AnnotationsShaped(ps)
    ensures MetaAnnotationsFromPairs(ps, pm).Ok? <==> forall k :: 0 <= k < |ps| ==> AnnotationFromPair(ps[k], pm).Ok?
    decreases |ps|
  {
    if |ps| > 0 {
      var tail := ps[1..];
      assert forall k :: 1 <= k < |ps| ==> tail[k - 1] == ps[k];
      MetaAnnotationsOk(tail, pm);
    }
  }

  /** A sequence that converts holds the nodes' annotations in order. */
  lemma {:induction false} MetaAnnotationsValues(ps: seq<Pair>, pm: PrefixMapping)
    requires AnnotationsShaped(ps) && MetaAnnotationsFromPairs(ps, pm).Ok?
    ensures forall k :: 0 <= k < |ps| ==> AnnotationFromPair(ps[k], pm) == Ok(MetaAnnotationsFromPairs(ps, pm).value[k])
    decreases |ps|
  {
    if |ps| > 0 {
      var tail := ps[1..];
      assert forall k :: 1 <= k < |ps| ==> tail[k - 1] == ps[k];
      MetaAnnotationsValues(tail, pm);
    }
  }

  /** A sequence that fails carries the error of its first node that fails. */
  lemma {:induction false} MetaAnnotationsFirstError(ps: seq<Pair>, pm: PrefixMapping)
    requires AnnotationsShaped(ps) && MetaAnnotationsFromPairs(ps, pm).Err?
    ensures exists k :: 0 <= k < |ps| && AnnotationFromPair(ps[k], pm) == Err(MetaAnnotationsFromPairs(ps, pm).error) &&
                        forall j :: 0 <= j < k ==> AnnotationFromPair(ps[j], pm).Ok?
    decreases |ps|
  {
    var e := MetaAnnotationsFromPairs(ps, pm).error;
    if AnnotationFromPair(ps[0], pm).Err? {
      assert AnnotationFromPair(ps[0], pm) == Err(e);
    } else {
      var tail := ps[1..];
      assert forall k :: 1 <= k < |ps| ==> tail[k - 1] == ps[k];
      assert MetaAnnotationsFromPairs(tail, pm) == Err(e);
      MetaAnnotationsFirstError(tail, pm);
      var k' :| 0 <= k' < |tail| && AnnotationFromPair(tail[k'], pm) == Err(e) &&
                forall j :: 0 <= j < k' ==> AnnotationFromPair(tail[j], pm).Ok?;
      assert AnnotationFromPair(ps[k' + 1], pm) == Err(e);
    }
  }

  /**
   * An annotation is read exactly when its meta-annotations, its property
   * and its value are; it holds the property and the value read, and
   * otherwise fails with the error of the first part that fails, in that
   * order.
   */
  lemma AnnotationParts(p: Pair, pm: PrefixMapping)
    requires AnnotationShaped(p)
    ensures var r := AnnotationFromPair(p, pm);
            var meta := MetaAnnotationsFromPairs(p.inner[0].inner, pm);
            var ap := AnnotationPropertyFromPair(p.inner[1], pm);
            var av := AnnotationValueFromPair(p.inner[2], pm);
            (r.Ok? <==> meta.Ok? && ap.Ok? && av.Ok?) &&
            (r.Ok? ==> r.value == Owl.Annotation(ap.value, av.value)) &&
            (r.Err? ==> r.error == if meta.Err? then meta.error else if ap.Err? then ap.error else av.error)
  {
  }

  /** An annotation node with the given meta-annotation nodes. */
  function WithMeta(p: Pair, meta: seq<Pair>): (q: Pair)
    requires |p.inner| >= 3
  {
    p.(inner := [p.inner[0].(inner := meta)] + p.inner[1..])
  }

  /**
   * Meta-annotations that convert leave no trace: the annotation is the one
   * the same node without them gives. One that fails makes the whole
   * annotation fail with its error.
   */
  lemma MetaAnnotationsDropped(p: Pair, meta: seq<Pair>, pm: PrefixMapping)
    requires AnnotationShaped(p) && AnnotationsShaped(meta)
    ensures AnnotationShaped(WithMeta(p, meta)) && AnnotationShaped(WithMeta(p, []))
    ensures MetaAnnotationsFromPairs(meta, pm).Ok? ==>
              AnnotationFromPair(WithMeta(p, meta), pm) == AnnotationFromPair(WithMeta(p, []), pm)
    ensures MetaAnnotationsFromPairs(meta, pm).Err? ==>
              AnnotationFromPair(WithMeta(p, meta), pm) == Err(MetaAnnotationsFromPairs(meta, pm).error)
  {
    WithMetaShaped(p, meta);
    WithMetaShaped(p, []);
  }

  lemma WithMetaShaped(p: Pair, meta: seq<Pair>)
    requires AnnotationShaped(p) && AnnotationsShaped(meta)
    ensures var q := WithMeta(p, meta);
            AnnotationShaped(q) && q.inner[0].inner == meta && q.inner[1] == p.inner[1] && q.inner[2] == p.inner[2]
  {
    var q := WithMeta(p, meta);
    assert q.inner[0].inner == meta && q.inner[1] == p.inner[1] && q.inner[2] == p.inner[2];
  }

  /** The tree of an annotation without meta-annotations, as written by the context-free generation. */
  function AnnotationTree(a: Annotation): (t: Pair)
    ensures AnnotationShaped(t) && |t.inner[0].inner| == 0
    ensures t.text == Render.RenderAnnotation(Render.ContextFree, a)
  {
    var property := FullIriTree(a.ap);
    var value := match a.av
      case IriValue(iri) => FullIriTree(iri)
      case LiteralValue(l) => LiteralTree(l);
    var text := Render.RenderAnnotation(Render.ContextFree, a);
    Pair(Rule.Annotation, text, [Pair(Other("Annotations"), "", []),
                            Pair(AnnotationProperty, property.text, [property]),
                            Pair(AnnotationValue, value.text, [value])])
  }

  /** An annotation written without a prefix table is read back as itself. */
  lemma AnnotationRoundTrip(a: Annotation, pm: PrefixMapping)
    requires a.av.LiteralValue? ==> TagTrimmed(a.av.literal)
    ensures AnnotationFromPair(AnnotationTree(a), pm) == Ok(a)
  {
    var t := AnnotationTree(a);
    assert MetaAnnotationsFromPairs(t.inner[0].inner, pm) == Ok([]);
    FullIriRoundTrip(a.ap, pm);
    match a.av
    case IriValue(iri) =>
      FullIriRoundTrip(iri, pm);
    case LiteralValue(l) =>
      LiteralRoundTrip(l, pm);
      LiteralCorrespondence(l, FromLiteral(l));
  }

  /** The annotations written without a prefix table, one tree each. */
  function AnnotationTrees(anns: seq<Annotation>): (ts: seq<Pair>)
    ensures |ts| == |anns| && forall k :: 0 <= k < |anns| ==> ts[k] == AnnotationTree(anns[k])
  {
    seq(|anns|, k requires 0 <= k < |anns| => AnnotationTree(anns[k]))
  }

  /** A sequence of annotations written without a prefix table is read back in order. */
  lemma AnnotationsRoundTrip(anns: seq<Annotation>, pm: PrefixMapping)
    requires forall k :: 0 <= k < |anns| ==> anns[k].av.LiteralValue? ==> TagTrimmed(anns[k].av.literal)
    ensures MetaAnnotationsFromPairs(AnnotationTrees(anns), pm) == Ok(anns)
  {
    var ts := AnnotationTrees(anns);
    forall k | 0 <= k < |anns|
      ensures AnnotationFromPair(ts[k], pm) == Ok(anns[k])
    {
      AnnotationRoundTrip(anns[k], pm);
    }
    MetaAnnotationsOk(ts, pm);
    MetaAnnotationsValues(ts, pm);
    var r := MetaAnnotationsFromPairs(ts, pm);
    assert forall k :: 0 <= k < |anns| ==> r.value[k] == anns[k];
    assert r.value == anns;
  }

  // ---------------------------------------------------------------------
  // Facets
  // ---------------------------------------------------------------------

  const AllFacets: seq<Facet> := [Length, MinLength, MaxLength, Pattern, MinInclusive, MinExclusive,
                                  MaxInclusive, MaxExclusive, TotalDigits, FractionDigits, LangRange]

  function FindFacet(facets: seq<Facet>, iri: string): (r: Option<Facet>)
    ensures r.Some? ==> r.value in facets && FacetIri(r.value) == iri
    ensures r.None? ==> forall f :: f in facets ==> FacetIri(f) != iri
  {
    if |facets| == 0 then None
    else if FacetIri(facets[0]) == iri then Some(facets[0])
    else FindFacet(facets[1..], iri)
  }

  /** The facet an IRI names; an IRI that names none is an `InvalidFacet` error carrying it. */
  function FacetFromIri(iri: string): (r: Result<Facet, Error>)
    ensures r.Ok? ==> FacetIri(r.value) == iri
    ensures r.Err? ==> r == Err(InvalidFacet(iri))
  {
    match FindFacet(AllFacets, iri)
    case Some(f) => Ok(f)
    case None => Err(InvalidFacet(iri))
  }

  lemma EveryFacetListed(f: Facet)
    ensures f in AllFacets
  {
  }

  /** No IRI names two facets, so the facet is recovered from its IRI. */
  lemma FacetRoundTrip(f: Facet)
    ensures FacetFromIri(FacetIri(f)) == Ok(f)
  {
    EveryFacetListed(f);
    var r := FacetFromIri(FacetIri(f));
    assert r.Ok?;
    FacetIriInjective(r.value, f);
  }

  lemma FacetIriInjective(f: Facet, g: Facet)
    requires FacetIri(f) == FacetIri(g)
    ensures f == g
  {
    // the IRIs in the rdf namespace and the xsd namespace differ in length
    if !f.LangRange? && !g.LangRange? {
      var x := |XsdNamespace|;
      assert FacetIri(f)[x..] == FacetIri(g)[x..];
    }
  }

  /** Every facet IRI starts with `http://www.`. */
  lemma FacetIriHost(f: Facet)
    ensures |FacetIri(f)| > 7 && FacetIri(f)[7] == 'w'
  {
    assert XsdNamespace[7] == 'w' && RdfNamespace[7] == 'w';
    if f.LangRange? {
      assert FacetIri(f)[7] == RdfNamespace[7];
    } else {
      assert FacetIri(f)[7] == XsdNamespace[7];
    }
  }

  /** An IRI on another host names no facet. */
  lemma OtherHostRejected(iri: string)
    requires |iri| <= 7 || iri[7] != 'w'
    ensures FacetFromIri(iri) == Err(InvalidFacet(iri))
  {
    var r := FacetFromIri(iri);
    if r.Ok? {
      FacetIriHost(r.value);
    }
  }

  /** An IRI outside the facet vocabulary is rejected with an `InvalidFacet` error. */
  lemma NonFacetExample()
    ensures FacetFromIri("http://example.com/thing") == Err(InvalidFacet("http://example.com/thing"))
  {
    OtherHostRejected("http://example.com/thing");
  }

  // ---------------------------------------------------------------------
  // Imports and ontology annotations
  // ---------------------------------------------------------------------

  predicate ImportShaped(p: Pair)
  {
    |p.inner| >= 1 && IriShaped(p.inner[0])
  }

  predicate ImportsShaped(ps: seq<Pair>)
  {
    forall k :: 0 <= k < |ps| ==> ImportShaped(ps[k])
  }

  function ImportFromPair(p: Pair, pm: PrefixMapping): (r: Result<Axiom, Error>)
    requires ImportShaped(p)
    ensures r.Ok? <==> IriFromPair(p.inner[0], pm).Ok?
    ensures r.Ok? ==> r.value == Axiom.Import(IriFromPair(p.inner[0], pm).value)
    ensures r.Err? ==> r.error == IriFromPair(p.inner[0], pm).error && r.error.Expansion?
  {
    var iri :- IriFromPair(p.inner[0], pm);
    Ok(Axiom.Import(iri))
  }

  /** The tree of an import of an IRI written in full. */
  function ImportTree(iri: Iri): (t: Pair)
    ensures ImportShaped(t) && t.inner[0] == FullIriTree(iri)
  {
    var i := FullIriTree(iri);
    Pair(Rule.Import, "Import(" + i.text + ")", [i])
  }

  /** An import of a full IRI is read back as an import of that IRI. */
  lemma ImportRoundTrip(iri: Iri, pm: PrefixMapping)
    ensures ImportFromPair(ImportTree(iri), pm) == Ok(Axiom.Import(iri))
  {
    FullIriRoundTrip(iri, pm);
  }

  /** An ontology annotation is read as a plain annotation. */
  function OntologyAnnotationFromPair(p: Pair, pm: PrefixMapping): (r: Result<Axiom, Error>)
    requires AnnotationShaped(p)
    ensures r.Ok? ==> r.value.OntologyAnnotation?
    ensures r.Err? ==> r.error.Expansion?
  {
    var a :- AnnotationFromPair(p, pm);
    Ok(OntologyAnnotation(a))
  }

  /**
   * An ontology annotation is read exactly when the annotation it holds
   * is, as that annotation, and otherwise fails with the annotation's error.
   */
  lemma OntologyAnnotationHolds(p: Pair, pm: PrefixMapping)
    requires AnnotationShaped(p)
    ensures var r, a := OntologyAnnotationFromPair(p, pm), AnnotationFromPair(p, pm);
            (r.Ok? <==> a.Ok?) && (r.Ok? ==> r.value == OntologyAnnotation(a.value)) && (r.Err? ==> r.error == a.error)
  {
  }

  /** An ontology annotation written without a prefix table is read back as itself. */
  lemma OntologyAnnotationRoundTrip(a: Annotation, pm: PrefixMapping)
    requires a.av.LiteralValue? ==> TagTrimmed(a.av.literal)
    ensures OntologyAnnotationFromPair(AnnotationTree(a), pm) == Ok(OntologyAnnotation(a))
  {
    AnnotationRoundTrip(a, pm);
  }

  /** The conversions of a sequence of imports, stopping at the first error. */
  function ImportsFromPairs(ps: seq<Pair>, pm: PrefixMapping): (r: Result<seq<Axiom>, Error>)
    requires ImportsShaped(ps)
    ensures r.Ok? ==> |r.value| == |ps| && forall k :: 0 <= k < |ps| ==> r.value[k].Import?
    ensures r.Ok? ==> forall ax :: ax in r.value ==> ax.Import?
    ensures r.Err? ==> r.error.Expansion?
  {
    if |ps| == 0 then Ok([])
    else
      var ax :- ImportFromPair(ps[0], pm);
      var rest :- ImportsFromPairs(ps[1..], pm);
      Ok([ax] + rest)
  }

  function OntologyAnnotationsFromPairs(ps: seq<Pair>, pm: PrefixMapping): (r: Result<seq<Axiom>, Error>)
    requires AnnotationsShaped(ps)
    ensures r.Ok? ==> |r.value| == |ps| && forall k :: 0 <= k < |ps| ==> r.value[k].OntologyAnnotation?
    ensures r.Ok? ==> forall ax :: ax in r.value ==> ax.OntologyAnnotation?
    ensures r.Err? ==> r.error.Expansion?
  {
    if |ps| == 0 then Ok([])
    else
      var ax :- OntologyAnnotationFromPair(ps[0], pm);
      var rest :- OntologyAnnotationsFromPairs(ps[1..], pm);
      Ok([ax] + rest)
  }

  // ---------------------------------------------------------------------
  // Ontologies
  // ---------------------------------------------------------------------

  predicate NoDuplicates(s: seq<AnnotatedAxiom>)
  {
    forall i, j :: 0 <= i < j < |s| ==> s[i] != s[j]
  }

  /**
   * Inserting an axiom without annotations into the ontology's axiom store,
   * which is a set: an axiom already present is not added again.
   */
  function InsertAxiom(axioms: seq<AnnotatedAxiom>, ax: Axiom): (r: seq<AnnotatedAxiom>)
    ensures forall x :: x in r <==> x in axioms || x == AnnotatedAxiom(ax, [])
    ensures NoDuplicates(axioms) ==> NoDuplicates(r)
    ensures |axioms| <= |r| <= |axioms| + 1
  {
    if AnnotatedAxiom(ax, []) in axioms then axioms else axioms + [AnnotatedAxiom(ax, [])]
  }

  function InsertAxioms(axioms: seq<AnnotatedAxiom>, axs: seq<Axiom>): (r: seq<AnnotatedAxiom>)
    ensures forall x :: x in r <==> x in axioms || (x.ann == [] && x.axiom in axs)
    ensures NoDuplicates(axioms) ==> NoDuplicates(r)
    decreases |axs|
  {
    if |axs| == 0 then axioms
    else InsertAxioms(InsertAxiom(axioms, axs[0]), axs[1..])
  }

  /** The axiom store holding the imports and then the ontology annotations, without annotations of their own. */
  function SectionAxioms(imports: seq<Axiom>, annotations: seq<Axiom>): (r: seq<AnnotatedAxiom>)
    requires forall ax :: ax in imports ==> ax.Import?
    requires forall ax :: ax in annotations ==> ax.OntologyAnnotation?
    ensures NoDuplicates(r)
    ensures forall a :: a in r ==> a.ann == [] && (a.axiom.Import? || a.axiom.OntologyAnnotation?)
    ensures forall a :: a in r <==> a.ann == [] && (a.axiom in imports || a.axiom in annotations)
  {
    InsertAxioms(InsertAxioms([], imports), annotations)
  }

  /** How many header nodes (ontology IRI, then version IRI) open an ontology node. */
  function HeaderLength(ps: seq<Pair>): (h: nat)
    ensures h <= 2 && h <= |ps|
    ensures h >= 1 <==> |ps| > 0 && ps[0].rule.OntologyIRI?
  {
    if |ps| > 0 && ps[0].rule.OntologyIRI? then
      (if |ps| > 1 && ps[1].rule.VersionIRI? then 2 else 1)
    else 0
  }

  /**
   * An ontology node holds its header, then the imports, the ontology
   * annotations and the axioms, each section a node of its own.
   */
  predicate OntologyShaped(p: Pair)
  {
    |p.inner| >= HeaderLength(p.inner) + 3 && HeaderShaped(p.inner) &&
    ImportsShaped(p.inner[HeaderLength(p.inner)].inner) && AnnotationsShaped(p.inner[HeaderLength(p.inner) + 1].inner)
  }

  /** Every header node holds an IRI. */
  predicate HeaderShaped(ps: seq<Pair>)
  {
    forall k :: 0 <= k < HeaderLength(ps) ==> |ps[k].inner| >= 1 && IriShaped(ps[k].inner[0])
  }

  /** The IRI held by header node `k`, if the header has that many nodes. */
  function HeaderIri(ps: seq<Pair>, k: nat, pm: PrefixMapping): (r: Result<Option<Iri>, Error>)
    requires k < HeaderLength(ps) ==> |ps[k].inner| >= 1 && IriShaped(ps[k].inner[0])
    ensures r.Ok? ==> (r.value.Some? <==> k < HeaderLength(ps))
    ensures r.Err? ==> r.error.Expansion?
    ensures k < HeaderLength(ps) ==>
              (r.Ok? <==> IriFromPair(ps[k].inner[0], pm).Ok?) &&
              (r.Ok? ==> r.value == Some(IriFromPair(ps[k].inner[0], pm).value)) &&
              (r.Err? ==> r.error == IriFromPair(ps[k].inner[0], pm).error)
    ensures k >= HeaderLength(ps) ==> r == Ok(None)
  {
    if k < HeaderLength(ps) then
      var iri :- IriFromPair(ps[k].inner[0], pm);
      Ok(Some(iri))
    else Ok(None)
  }

  /**
   * The ontology identity a header spells: the IRI of the first header
   * node, then the IRI of the second, each present exactly when its node is.
   */
  function HeaderFromPairs(ps: seq<Pair>, pm: PrefixMapping): (r: Result<OntologyId, Error>)
    requires HeaderShaped(ps)
    ensures r.Ok? ==> (r.value.iri.Some? <==> HeaderLength(ps) >= 1)
    ensures r.Ok? ==> (r.value.viri.Some? <==> HeaderLength(ps) == 2)
    ensures r.Ok? && r.value.iri.Some? ==> IriFromPair(ps[0].inner[0], pm) == Ok(r.value.iri.value)
    ensures r.Ok? && r.value.viri.Some? ==> IriFromPair(ps[1].inner[0], pm) == Ok(r.value.viri.value)
    ensures r.Err? <==> HeaderIri(ps, 0, pm).Err? || HeaderIri(ps, 1, pm).Err?
    ensures r.Err? ==> r.error.Expansion?
  {
    var iri :- HeaderIri(ps, 0, pm);
    var viri :- HeaderIri(ps, 1, pm);
    Ok(OntologyId(iri, viri))
  }

  /**
   * The ontology read from its header and its two sections: the identity
   * from the header, the imports and the ontology annotations as unannotated
   * axioms, or the error of the first part that failed.
   */
  function AssembleOntology(header: Result<OntologyId, Error>, imports: Result<seq<Axiom>, Error>,
                            annotations: Result<seq<Axiom>, Error>): (r: Result<Ontology, Error>)
    requires imports.Ok? ==> forall ax :: ax in imports.value ==> ax.Import?
    requires annotations.Ok? ==> forall ax :: ax in annotations.value ==> ax.OntologyAnnotation?
    ensures r.Ok? <==> header.Ok? && imports.Ok? && annotations.Ok?
    ensures r.Ok? ==> r.value.id == header.value
    ensures r.Ok? ==> forall a :: a in r.value.axioms <==>
                        a.ann == [] && (a.axiom in imports.value || a.axiom in annotations.value)
    ensures r.Ok? ==> NoDuplicates(r.value.axioms)
    ensures r.Ok? ==> forall a :: a in r.value.axioms ==> a.ann == [] && (a.axiom.Import? || a.axiom.OntologyAnnotation?)
    ensures r.Err? ==> r.error == if header.Err? then header.error else if imports.Err? then imports.error else annotations.error
  {
    match header
    case Err(e) => Err(e)
    case Ok(id) =>
      match imports
      case Err(e) => Err(e)
      case Ok(imported) =>
        match annotations
        case Err(e) => Err(e)
        case Ok(anns) => Ok(Owl.Ontology(id, SectionAxioms(imported, anns)))
  }

  /**
   * Reads the ontology IRI, the version IRI, the imports and the ontology
   * annotations, in that order, stopping at the first error. The axiom
   * section is not read.
   */
  function OntologyFromPair(p: Pair, pm: PrefixMapping): (r: Result<Ontology, Error>)
    requires OntologyShaped(p)
    ensures r.Ok? ==> HeaderFromPairs(p.inner, pm) == Ok(r.value.id)
    ensures r.Err? ==> r.error.Expansion?
  {
    var h := HeaderLength(p.inner);
    AssembleOntology(HeaderFromPairs(p.inner, pm), ImportsFromPairs(p.inner[h].inner, pm),
                     OntologyAnnotationsFromPairs(p.inner[h + 1].inner, pm))
  }

  /** An ontology is read section by section, the sections assembled as above. */
  lemma {:induction false} OntologyFromSections(p: Pair, pm: PrefixMapping)
    requires OntologyShaped(p)
    ensures var h := HeaderLength(p.inner);
            OntologyFromPair(p, pm) ==
              AssembleOntology(HeaderFromPairs(p.inner, pm), ImportsFromPairs(p.inner[h].inner, pm),
                               OntologyAnnotationsFromPairs(p.inner[h + 1].inner, pm))
  {
    hide ImportsFromPairs, OntologyAnnotationsFromPairs, HeaderFromPairs, AssembleOntology;
  }

  /**
   * An ontology that is read holds exactly its imports and its ontology
   * annotations, each once and without annotations of its own.
   */
  lemma {:induction false} OntologyContents(p: Pair, pm: PrefixMapping)
    requires OntologyShaped(p)
    ensures var h := HeaderLength(p.inner);
            var imports := ImportsFromPairs(p.inner[h].inner, pm);
            var annotations := OntologyAnnotationsFromPairs(p.inner[h + 1].inner, pm);
            var r := OntologyFromPair(p, pm);
            r.Ok? ==>
            var axioms := r.value.axioms;
            imports.Ok? && annotations.Ok? &&
            (forall a :: a in axioms <==> a.ann == [] && (a.axiom in imports.value || a.axiom in annotations.value)) &&
            NoDuplicates(axioms) &&
            forall a :: a in axioms ==> a.ann == [] && (a.axiom.Import? || a.axiom.OntologyAnnotation?)
  {
    OntologyFromSections(p, pm);
    hide ImportsFromPairs, OntologyAnnotationsFromPairs, HeaderFromPairs, AssembleOntology, OntologyFromPair;
  }

  /**
   * Reading an ontology fails exactly when its header, its imports or its
   * ontology annotations fail.
   */
  lemma {:induction false} OntologyReadFails(p: Pair, pm: PrefixMapping)
    requires OntologyShaped(p)
    ensures var h := HeaderLength(p.inner);
            OntologyFromPair(p, pm).Err? <==>
              HeaderFromPairs(p.inner, pm).Err? || ImportsFromPairs(p.inner[h].inner, pm).Err? ||
              OntologyAnnotationsFromPairs(p.inner[h + 1].inner, pm).Err?
  {
    OntologyFromSections(p, pm);
    hide ImportsFromPairs, OntologyAnnotationsFromPairs, HeaderFromPairs, AssembleOntology, OntologyFromPair;
  }

  /**
   * An ontology that fails to read carries the error of the first of its
   * header, its imports and its ontology annotations that fails.
   */
  lemma {:induction false} OntologyFirstError(p: Pair, pm: PrefixMapping)
    requires OntologyShaped(p) && OntologyFromPair(p, pm).Err?
    ensures var h := HeaderLength(p.inner);
            var header := HeaderFromPairs(p.inner, pm);
            var imports := ImportsFromPairs(p.inner[h].inner, pm);
            var e := OntologyFromPair(p, pm).error;
            (header.Err? && e == header.error) ||
            (header.Ok? && imports.Err? && e == imports.error) ||
            (header.Ok? && imports.Ok? && OntologyAnnotationsFromPairs(p.inner[h + 1].inner, pm) == Err(e))
  {
    OntologyFromSections(p, pm);
    hide ImportsFromPairs, OntologyAnnotationsFromPairs, HeaderFromPairs, AssembleOntology, OntologyFromPair;
  }

  /** The header nodes of an ontology identity whose IRIs are written in full. */
  function HeaderTrees(id: OntologyId): (hs: seq<Pair>)
    requires id.viri.Some? ==> id.iri.Some?
    ensures |hs| == (if id.iri.None? then 0 else if id.viri.None? then 1 else 2)
  {
    match id.iri
    case None => []
    case Some(iri) =>
      [Pair(OntologyIRI, Render.Bracketed(iri), [FullIriTree(iri)])] +
      match id.viri
      case None => []
      case Some(v) => [Pair(VersionIRI, Render.Bracketed(v), [FullIriTree(v)])]
  }

  /** The tree of an ontology with the given header and three empty sections. */
  function HeaderOnlyTree(id: OntologyId): (t: Pair)
    requires id.viri.Some? ==> id.iri.Some?
    ensures OntologyShaped(t) && HeaderLength(t.inner) == |HeaderTrees(id)|
  {
    var empty := Pair(Other("Section"), "", []);
    var hs := HeaderTrees(id);
    var t := Pair(Rule.Ontology, "", hs + [empty, empty, empty]);
    assert forall k :: 0 <= k < |hs| ==> t.inner[k] == hs[k];
    t
  }

  /**
   * An ontology identity written in full is read back as itself: the
   * ontology IRI from the first header node, the version IRI from the
   * second.
   */
  lemma HeaderRoundTrip(id: OntologyId, pm: PrefixMapping)
    requires id.viri.Some? ==> id.iri.Some?
    ensures OntologyFromPair(HeaderOnlyTree(id), pm) == Ok(Owl.Ontology(id, []))
  {
    var t := HeaderOnlyTree(id);
    var h := HeaderLength(t.inner);
    if id.iri.Some? {
      FullIriRoundTrip(id.iri.value, pm);
    }
    if id.viri.Some? {
      FullIriRoundTrip(id.viri.value, pm);
    }
    assert ImportsFromPairs(t.inner[h].inner, pm) == Ok([]);
    assert OntologyAnnotationsFromPairs(t.inner[h + 1].inner, pm) == Ok([]);
  }

  /** An ontology node with its axiom section replaced. */
  function WithAxiomSection(p: Pair, section: Pair): (q: Pair)
    requires OntologyShaped(p)
    ensures OntologyShaped(q)
  {
    var h := HeaderLength(p.inner);
    var q := p.(inner := p.inner[h + 2 := section]);
    assert HeaderLength(q.inner) == h;
    q
  }

  /** Two node sequences that agree on their header nodes spell the same identity. */
  lemma SameHeader(ps: seq<Pair>, qs: seq<Pair>, pm: PrefixMapping)
    requires HeaderShaped(ps) && |qs| == |ps|
    requires forall k :: 0 <= k < HeaderLength(ps) ==> qs[k] == ps[k]
    requires |ps| > HeaderLength(ps) ==> qs[HeaderLength(ps)].rule == ps[HeaderLength(ps)].rule
    ensures HeaderLength(qs) == HeaderLength(ps) && HeaderShaped(qs)
    ensures HeaderFromPairs(qs, pm) == HeaderFromPairs(ps, pm)
  {
    assert HeaderLength(qs) == HeaderLength(ps);
    assert HeaderIri(qs, 0, pm) == HeaderIri(ps, 0, pm);
    assert HeaderIri(qs, 1, pm) == HeaderIri(ps, 1, pm);
  }

  /** Whatever the axiom section holds, the ontology read is the same. */
  lemma AxiomSectionIgnored(p: Pair, section: Pair, pm: PrefixMapping)
    requires OntologyShaped(p)
    ensures OntologyFromPair(WithAxiomSection(p, section), pm) == OntologyFromPair(p, pm)
  {
    hide ImportsFromPairs, OntologyAnnotationsFromPairs, HeaderFromPairs, AssembleOntology;
    var q := WithAxiomSection(p, section);
    var h := HeaderLength(p.inner);
    assert HeaderLength(q.inner) == h;
    assert q.inner[h] == p.inner[h] && q.inner[h + 1] == p.inner[h + 1];
    SameHeader(p.inner, q.inner, pm);
    OntologyFromSections(p, pm);
    OntologyFromSections(q, pm);
    hide OntologyFromPair;
    assert ImportsFromPairs(q.inner[h].inner, pm) == ImportsFromPairs(p.inner[h].inner, pm);
    assert OntologyAnnotationsFromPairs(q.inner[h + 1].inner, pm) == OntologyAnnotationsFromPairs(p.inner[h + 1].inner, pm);
  }

  // ---------------------------------------------------------------------
  // Documents
  // ---------------------------------------------------------------------

  /**
   * A prefix declaration holds the prefix (whose first child holds the
   * prefix name, absent for the default prefix) and the full IRI bound to it.
   */
  predicate PrefixDeclarationShaped(d: Pair)
  {
    |d.inner| >= 2 && |d.inner[0].inner| >= 1 && |d.inner[1].inner| >= 1
  }

  function PrefixName(d: Pair): Option<string>
    requires PrefixDeclarationShaped(d)
  {
    var pname := d.inner[0].inner[0];
    if |pname.inner| > 0 then Some(pname.inner[0].text) else None
  }

  /** The text between the angle brackets of the bound IRI. */
  function PrefixValue(d: Pair): string
    requires PrefixDeclarationShaped(d)
  {
    d.inner[1].inner[0].text
  }

  /** How many prefix declarations open a document's children. */
  function LeadingPrefixes(ps: seq<Pair>): (n: nat)
    ensures n <= |ps|
    ensures forall k :: 0 <= k < n ==> ps[k].rule.PrefixDeclaration?
    ensures n < |ps| ==> !ps[n].rule.PrefixDeclaration?
  {
    if |ps| > 0 && ps[0].rule.PrefixDeclaration? then 1 + LeadingPrefixes(ps[1..]) else 0
  }

  predicate DocumentShaped(p: Pair)
  {
    var n := LeadingPrefixes(p.inner);
    n < |p.inner| &&
    (forall k :: 0 <= k < n ==> PrefixDeclarationShaped(p.inner[k])) &&
    OntologyShaped(p.inner[n])
  }

  /** One declaration: a named prefix is added, the empty prefix sets the default. */
  function DeclarePrefix(pm: PrefixMapping, d: Pair): (r: Result<PrefixMapping, Error>)
    requires PrefixDeclarationShaped(d)
    ensures r.Err? <==> PrefixName(d) == Some(ReservedPrefix)
    ensures r.Err? ==> r.error == Expansion(Invalid)
  {
    match PrefixName(d)
    case Some(name) =>
      (match AddPrefix(pm, name, PrefixValue(d))
       case Ok(pm') => Ok(pm')
       case Err(e) => Err(FromExpansion(e)))
    case None => Ok(SetDefault(pm, PrefixValue(d)))
  }

  /** The declarations applied in document order, stopping at the first error. */
  function PrefixBlock(ds: seq<Pair>, pm: PrefixMapping): (r: Result<PrefixMapping, Error>)
    requires forall k :: 0 <= k < |ds| ==> PrefixDeclarationShaped(ds[k])
    ensures r.Err? <==> exists k :: 0 <= k < |ds| && PrefixName(ds[k]) == Some(ReservedPrefix)
    ensures r.Err? ==> r.error == Expansion(Invalid)
    decreases |ds|
  {
    if |ds| == 0 then Ok(pm)
    else
      var pm' :- DeclarePrefix(pm, ds[0]);
      var r := PrefixBlock(ds[1..], pm');
      assert forall k :: 0 <= k < |ds| - 1 ==> ds[1..][k] == ds[k + 1];
      r
  }

  /**
   * Reads the prefix declarations into a table built from an empty one and
   * then the ontology against that table; the table passed in by the caller
   * is not consulted.
   */
  function DocumentFromPair(p: Pair, caller: PrefixMapping): (r: Result<(Ontology, PrefixMapping), Error>)
    requires DocumentShaped(p)
    ensures r.Err? ==> r.error.Expansion?
    ensures r.Ok? ==> OntologyFromPair(p.inner[LeadingPrefixes(p.inner)], r.value.1) == Ok(r.value.0)
    ensures var n := LeadingPrefixes(p.inner);
            r.Ok? ==> PrefixBlock(p.inner[..n], Empty) == Ok(r.value.1)
    ensures var n := LeadingPrefixes(p.inner);
            var block := PrefixBlock(p.inner[..n], Empty);
            r.Err? <==> block.Err? || OntologyFromPair(p.inner[n], block.value).Err?
  {
    var n := LeadingPrefixes(p.inner);
    var pm :- PrefixBlock(p.inner[..n], Empty);
    var o :- OntologyFromPair(p.inner[n], pm);
    Ok((o, pm))
  }

  /** The binding a table gives to a prefix name, or to the default prefix for `None`. */
  function Binding(pm: PrefixMapping, name: Option<string>): Option<string>
  {
    match name
    case Some(n) => Lookup(pm.mapping, n)
    case None => pm.default
  }

  /** The value of the last declaration of `name` in `ds`, if there is one. */
  function LastDeclared(ds: seq<Pair>, name: Option<string>): (r: Option<string>)
    requires forall k :: 0 <= k < |ds| ==> PrefixDeclarationShaped(ds[k])
  {
    if |ds| == 0 then None
    else if PrefixName(ds[|ds| - 1]) == name then Some(PrefixValue(ds[|ds| - 1]))
    else LastDeclared(ds[..|ds| - 1], name)
  }

  lemma {:induction false} PrefixBlockSnoc(ds: seq<Pair>, d: Pair, pm: PrefixMapping)
    requires forall k :: 0 <= k < |ds| ==> PrefixDeclarationShaped(ds[k])
    requires PrefixDeclarationShaped(d)
    ensures forall k :: 0 <= k < |ds + [d]| ==> PrefixDeclarationShaped((ds + [d])[k])
    ensures PrefixBlock(ds + [d], pm) ==
              match PrefixBlock(ds, pm)
              case Ok(pm') => DeclarePrefix(pm', d)
              case Err(e) => Err(e)
    decreases |ds|
  {
    assert forall k :: 0 <= k < |ds + [d]| ==> PrefixDeclarationShaped((ds + [d])[k]);
    if |ds| > 0 {
      assert (ds + [d])[0] == ds[0] && (ds + [d])[1..] == ds[1..] + [d];
      var first := DeclarePrefix(pm, ds[0]);
      if first.Ok? {
        PrefixBlockSnoc(ds[1..], d, first.value);
      }
    }
  }

  /**
   * After a prefix block, every prefix name is bound to the value of its
   * last declaration, and a name the block does not declare keeps the
   * binding it had.
   */
  lemma {:induction false} LastDeclarationWins(ds: seq<Pair>, pm: PrefixMapping, name: Option<string>)
    requires forall k :: 0 <= k < |ds| ==> PrefixDeclarationShaped(ds[k])
    requires PrefixBlock(ds, pm).Ok?
    ensures Binding(PrefixBlock(ds, pm).value, name) ==
              if LastDeclared(ds, name).Some? then LastDeclared(ds, name) else Binding(pm, name)
    decreases |ds|
  {
    if |ds| > 0 {
      var init, d := ds[..|ds| - 1], ds[|ds| - 1];
      assert init + [d] == ds;
      PrefixBlockSnoc(init, d, pm);
      LastDeclarationWins(init, pm, name);
    }
  }

  /**
   * The table a document returns binds every prefix name, and the default
   * prefix, to the value of its last declaration in the document; anything
   * the document does not declare is unbound, whatever the caller's table.
   */
  lemma DocumentBindings(p: Pair, caller: PrefixMapping, name: Option<string>)
    requires DocumentShaped(p) && DocumentFromPair(p, caller).Ok?
    ensures var n := LeadingPrefixes(p.inner);
            Binding(DocumentFromPair(p, caller).value.1, name) == LastDeclared(p.inner[..n], name)
  {
    var n := LeadingPrefixes(p.inner);
    LastDeclarationWins(p.inner[..n], Empty, name);
    assert Binding(Empty, name) == None;
  }

  /** The tree of `Prefix(name:=<value>)`; `None` stands for the default prefix. */
  function PrefixDeclarationTree(name: Option<string>, value: string): (t: Pair)
    ensures PrefixDeclarationShaped(t) && t.rule.PrefixDeclaration?
    ensures PrefixName(t) == name && PrefixValue(t) == value
  {
    var n := match name case Some(x) => x case None => "";
    var pnameNs := Pair(Other("PNAME_NS"), n + ":", match name case Some(x) => [Token("PN_PREFIX", x)] case None => []);
    var prefixName := Pair(Other("PrefixName"), n + ":", [pnameNs]);
    var iri := Pair(FullIRI, "<" + value + ">", [Token("IRIREF", value)]);
    Pair(PrefixDeclaration, "Prefix(" + n + ":=<" + value + ">)", [prefixName, iri])
  }

  /** The tree of `Ontology()`: no header, and three empty sections. */
  function EmptyOntologyTree(): (t: Pair)
    ensures OntologyShaped(t) && HeaderLength(t.inner) == 0 && !t.rule.PrefixDeclaration?
  {
    var empty := Pair(Other("Section"), "", []);
    Pair(Rule.Ontology, "Ontology()", [empty, empty, empty])
  }

  /**
   * `Prefix(ex:=<http://example.com/>) Prefix(:=<http://default.com/>) Ontology()`
   * gives the empty ontology, `ex` bound, and the default namespace set.
   */
  lemma DocumentExample(caller: PrefixMapping)
    ensures var ex := PrefixDeclarationTree(Some("ex"), "http://example.com/");
            var default := PrefixDeclarationTree(None, "http://default.com/");
            var doc := Pair(OntologyDocument, "", [ex, default, EmptyOntologyTree()]);
            DocumentShaped(doc) &&
            DocumentFromPair(doc, caller) == Ok((EmptyOntology, PrefixMapping(Some("http://default.com/"), [("ex", "http://example.com/")])))
  {
    var ex := PrefixDeclarationTree(Some("ex"), "http://example.com/");
    var default := PrefixDeclarationTree(None, "http://default.com/");
    var o := EmptyOntologyTree();
    var doc := Pair(OntologyDocument, "", [ex, default, o]);
    assert LeadingPrefixes(doc.inner[2..]) == 0;
    assert doc.inner[1..][1..] == doc.inner[2..];
    assert LeadingPrefixes(doc.inner) == 2;
    assert doc.inner[..2] == [ex, default];
    var pm1 := PrefixMapping(None, [("ex", "http://example.com/")]);
    var pm2 := PrefixMapping(Some("http://default.com/"), [("ex", "http://example.com/")]);
    assert DeclarePrefix(Empty, ex) == Ok(pm1);
    assert DeclarePrefix(pm1, default) == Ok(pm2);
    assert [ex, default][1..] == [default];
    assert [default][1..] == [];
    assert PrefixBlock([default], pm1) == Ok(pm2);
    assert PrefixBlock([ex, default], Empty) == Ok(PrefixMapping(Some("http://default.com/"), [("ex", "http://example.com/")]));
    assert OntologyFromPair(o, PrefixMapping(Some("http://default.com/"), [("ex", "http://example.com/")])).Ok?;
  }
}
