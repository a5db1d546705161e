/**
 * The contextual generation of the renderer applied to whole documents:
 * annotated axioms, prefix tables and ontologies.
 */
module AsOfn {
  import opened Wrappers
  import opened Text
  import opened Owl
  import opened Curie
  import opened Render

  /** An annotated axiom is its axiom written with its annotations in the slot. */
  function RenderAnnotatedAxiom(ctx: Context, aa: AnnotatedAxiom): string
    requires AxiomOk(Contextual(ctx), aa.axiom)
  {
    RenderAxiom(Contextual(ctx), aa.axiom, Some(aa.ann))
  }

  /**
   * With no annotations the slot still holds its separating space, so the
   * text is the unannotated text with a space after the opening parenthesis.
   */
  lemma EmptyAnnotationsLeaveSpace(ctx: Context, ax: Axiom)
    requires IsTemplated(ax) && AxiomOk(Contextual(ctx), ax)
    ensures var plain := RenderAxiom(Contextual(ctx), ax, None);
            var open := |Keyword(ax)| + 1;
            open <= |plain| &&
            RenderAnnotatedAxiom(ctx, AnnotatedAxiom(ax, [])) == plain[..open] + " " + plain[open..]
  {
    var g := Contextual(ctx);
    AnnotationsAfterKeyword(ctx, ax, []);
    assert RenderAnnotations(g, []) == [];
    var plain := RenderAxiom(g, ax, None);
    var open := |Keyword(ax)| + 1;
    assert plain[..open] + "" + " " + plain[open..] == plain[..open] + " " + plain[open..];
  }

  /**
   * Declarations, ontology annotations, annotation assertions and keys
   * have their own writers, which drop the axiom's annotations.
   */
  lemma OwnWritersDropAnnotations(ctx: Context, ax: Axiom, ann: seq<Annotation>)
    requires !IsTemplated(ax) && AxiomOk(Contextual(ctx), ax)
    ensures RenderAnnotatedAxiom(ctx, AnnotatedAxiom(ax, ann)) == RenderAxiom(Contextual(ctx), ax, None)
  {
  }

  /** The table's bindings, one `Prefix(name:=value)` line each, in the table's order. */
  function RenderPrefixMapping(pm: PrefixMapping): (r: string)
    ensures |pm.mapping| == 0 <==> r == ""
    decreases |pm.mapping|
  {
    if |pm.mapping| == 0 then ""
    else
      var (name, value) := pm.mapping[0];
      PrefixLine(name, value) + RenderPrefixMapping(PrefixMapping(pm.default, pm.mapping[1..]))
  }

  function PrefixLine(name: string, value: string): string
  {
    "Prefix(" + name + ":=" + value + ")\n"
  }

  function CountChar(s: string, c: char): nat
  {
    if |s| == 0 then 0 else (if s[0] == c then 1 else 0) + CountChar(s[1..], c)
  }

  lemma {:induction false} CountCharAppend(a: string, b: string, c: char)
    ensures CountChar(a + b, c) == CountChar(a, c) + CountChar(b, c)
    decreases |a|
  {
    if |a| == 0 {
      assert a + b == b;
    } else {
      assert (a + b)[1..] == a[1..] + b;
      CountCharAppend(a[1..], b, c);
    }
  }

  /** One binding's line holds exactly one line break when its name and value hold none. */
  lemma PrefixLineBreaks(name: string, value: string)
    requires CountChar(name, '\n') == 0 && CountChar(value, '\n') == 0
    ensures CountChar(PrefixLine(name, value), '\n') == 1
  {
    assert "Prefix(" + name + ":=" + value + ")\n" == ("Prefix(" + name) + (":=" + value + ")\n");
    assert ":=" + value + ")\n" == (":=" + value) + ")\n";
    CountCharAppend("Prefix(" + name, ":=" + value + ")\n", '\n');
    CountCharAppend("Prefix(", name, '\n');
    CountCharAppend(":=" + value, ")\n", '\n');
    CountCharAppend(":=", value, '\n');
  }

  /** A table whose names and values hold no line break is written as exactly one line per binding. */
  lemma {:induction false} PrefixLinePerBinding(pm: PrefixMapping)
    requires forall k :: 0 <= k < |pm.mapping| ==>
               CountChar(pm.mapping[k].0, '\n') == 0 && CountChar(pm.mapping[k].1, '\n') == 0
    ensures CountChar(RenderPrefixMapping(pm), '\n') == |pm.mapping|
    decreases |pm.mapping|
  {
    if |pm.mapping| != 0 {
      var (name, value) := pm.mapping[0];
      var rest := PrefixMapping(pm.default, pm.mapping[1..]);
      var line := PrefixLine(name, value);
      PrefixLinePerBinding(rest);
      PrefixLineBreaks(name, value);
      assert RenderPrefixMapping(pm) == line + RenderPrefixMapping(rest);
      CountCharAppend(line, RenderPrefixMapping(rest), '\n');
    }
  }

  /** The default namespace is not written: only the named bindings are. */
  lemma {:induction false} DefaultNotWritten(pm: PrefixMapping, d: Option<string>)
    ensures RenderPrefixMapping(pm) == RenderPrefixMapping(pm.(default := d))
    decreases |pm.mapping|
  {
    if |pm.mapping| > 0 {
      DefaultNotWritten(PrefixMapping(pm.default, pm.mapping[1..]), d);
    }
  }

  /** A table's text is the text of its first bindings followed by the text of the rest. */
  lemma {:induction false} PrefixMappingAppend(d: Option<string>, a: seq<(string, string)>, b: seq<(string, string)>)
    ensures RenderPrefixMapping(PrefixMapping(d, a + b))
            == RenderPrefixMapping(PrefixMapping(d, a)) + RenderPrefixMapping(PrefixMapping(d, b))
    decreases |a|
  {
    if |a| > 0 {
      var line := PrefixLine(a[0].0, a[0].1);
      assert (a + b)[0] == a[0] && (a + b)[1..] == a[1..] + b;
      assert RenderPrefixMapping(PrefixMapping(d, a + b)) == line + RenderPrefixMapping(PrefixMapping(d, a[1..] + b));
      assert RenderPrefixMapping(PrefixMapping(d, a)) == line + RenderPrefixMapping(PrefixMapping(d, a[1..]));
      PrefixMappingAppend(d, a[1..], b);
    } else {
      assert a == [];
      assert a + b == b;
      assert RenderPrefixMapping(PrefixMapping(d, a)) == "";
    }
  }

  /**
   * Binding `k` of a table is written as the line `Prefix(name:=value)`,
   * after the lines of the bindings before it and before the lines of the
   * bindings after it.
   */
  lemma PrefixLineAt(pm: PrefixMapping, k: nat)
    requires k < |pm.mapping|
    ensures var (name, value) := pm.mapping[k];
            RenderPrefixMapping(pm)
              == RenderPrefixMapping(PrefixMapping(None, pm.mapping[..k]))
                 + ("Prefix(" + name + ":=" + value + ")\n")
                 + RenderPrefixMapping(PrefixMapping(None, pm.mapping[k + 1..]))
  {
    var m := pm.mapping;
    DefaultNotWritten(pm, None);
    assert m == m[..k] + ([m[k]] + m[k + 1..]);
    PrefixMappingAppend(None, m[..k], [m[k]] + m[k + 1..]);
    PrefixMappingAppend(None, [m[k]], m[k + 1..]);
    assert ([m[k]] + m[k + 1..])[1..] == m[k + 1..];
    assert RenderPrefixMapping(PrefixMapping(None, [m[k]])) == PrefixLine(m[k].0, m[k].1);
  }

  /**
   * The section of the ontology body an axiom is written in: imports first,
   * then ontology annotations, then every other axiom.
   */
  function Section(aa: AnnotatedAxiom): nat
  {
    if aa.axiom.Import? then 0 else if aa.axiom.OntologyAnnotation? then 1 else 2
  }

  /** The axioms of one section, in iteration order. */
  function OfSection(axs: seq<AnnotatedAxiom>, s: nat): (r: seq<AnnotatedAxiom>)
    ensures forall k :: 0 <= k < |r| ==> Section(r[k]) == s
    ensures |r| <= |axs|
  {
    if |axs| == 0 then []
    else (if Section(axs[0]) == s then [axs[0]] else []) + OfSection(axs[1..], s)
  }

  /** The order in which the body is written. */
  function WriteOrder(axs: seq<AnnotatedAxiom>): seq<AnnotatedAxiom>
  {
    OfSection(axs, 0) + OfSection(axs, 1) + OfSection(axs, 2)
  }

  lemma {:induction false} OfSectionAppend(a: seq<AnnotatedAxiom>, b: seq<AnnotatedAxiom>, s: nat)
    ensures OfSection(a + b, s) == OfSection(a, s) + OfSection(b, s)
    decreases |a|
  {
    if |a| == 0 {
      assert a + b == b;
    } else {
      assert (a + b)[1..] == a[1..] + b;
      OfSectionAppend(a[1..], b, s);
    }
  }

  /** Filtering the axioms of one section out of a section keeps it or empties it. */
  lemma {:induction false} OfSectionOfSection(axs: seq<AnnotatedAxiom>, s: nat, t: nat)
    ensures OfSection(OfSection(axs, s), t) == if s == t then OfSection(axs, s) else []
    decreases |axs|
  {
    if |axs| != 0 {
      OfSectionOfSection(axs[1..], s, t);
      var head := if Section(axs[0]) == s then [axs[0]] else [];
      OfSectionAppend(head, OfSection(axs[1..], s), t);
      if Section(axs[0]) == s {
        assert [axs[0]][1..] == [];
      }
    }
  }

  lemma {:induction false} SectionsPartition(axs: seq<AnnotatedAxiom>)
    ensures multiset(OfSection(axs, 0)) + multiset(OfSection(axs, 1)) + multiset(OfSection(axs, 2))
            == multiset(axs)
  {
    KeyPartition(axs, Section);
    forall s | 0 <= s <= 2 ensures OfSection(axs, s) == WithKey(axs, Section, s) {
      OfSectionWithKey(axs, s);
    }
  }

  /** The sections are the selections by section number. */
  lemma {:induction false} OfSectionWithKey(axs: seq<AnnotatedAxiom>, s: nat)
    ensures OfSection(axs, s) == WithKey(axs, Section, s)
    decreases |axs|
  {
    if |axs| != 0 {
      OfSectionWithKey(axs[1..], s);
    }
  }

  /** Every axiom is written exactly as many times as it occurs. */
  lemma WriteOrderPermutes(axs: seq<AnnotatedAxiom>)
    ensures multiset(WriteOrder(axs)) == multiset(axs)
  {
    SectionsPartition(axs);
  }

  /** Imports come before ontology annotations, which come before everything else. */
  lemma WriteOrderSorted(axs: seq<AnnotatedAxiom>)
    ensures forall i, j :: 0 <= i < j < |WriteOrder(axs)| ==>
              Section(WriteOrder(axs)[i]) <= Section(WriteOrder(axs)[j])
  {
    var a, b, c := OfSection(axs, 0), OfSection(axs, 1), OfSection(axs, 2);
    var w := WriteOrder(axs);
    forall i | 0 <= i < |w| ensures Section(w[i]) == if i < |a| then 0 else if i < |a| + |b| then 1 else 2 {
      if i < |a| {
        assert w[i] == a[i];
      } else if i < |a| + |b| {
        assert w[i] == b[i - |a|];
      } else {
        assert w[i] == c[i - |a| - |b|];
      }
    }
  }

  /** Within each section the axioms keep their iteration order. */
  lemma WriteOrderStable(axs: seq<AnnotatedAxiom>, s: nat)
    ensures OfSection(WriteOrder(axs), s) == OfSection(axs, s)
  {
    OfSectionAppend(OfSection(axs, 0) + OfSection(axs, 1), OfSection(axs, 2), s);
    OfSectionAppend(OfSection(axs, 0), OfSection(axs, 1), s);
    OfSectionOfSection(axs, 0, s);
    OfSectionOfSection(axs, 1, s);
    OfSectionOfSection(axs, 2, s);
    if s > 2 {
      OfSectionEmpty(axs, s);
    }
  }

  lemma {:induction false} OfSectionEmpty(axs: seq<AnnotatedAxiom>, s: nat)
    requires s > 2
    ensures OfSection(axs, s) == []
    decreases |axs|
  {
    if |axs| != 0 {
      OfSectionEmpty(axs[1..], s);
    }
  }

  predicate OntologyOk(ctx: Context, o: Ontology)
  {
    forall k :: 0 <= k < |o.axioms| ==> AxiomOk(Contextual(ctx), o.axioms[k].axiom)
  }

  /**
   * One line of the body: imports and ontology annotations are written
   * from their bare axioms, without annotations; every other axiom with its
   * annotations in the slot.
   */
  function AxiomLine(ctx: Context, aa: AnnotatedAxiom): string
    requires AxiomOk(Contextual(ctx), aa.axiom)
  {
    if Section(aa) < 2 then RenderAxiom(Contextual(ctx), aa.axiom, None) + "\n"
    else RenderAnnotatedAxiom(ctx, aa) + "\n"
  }

  function Lines(ctx: Context, axs: seq<AnnotatedAxiom>): string
    requires forall k :: 0 <= k < |axs| ==> AxiomOk(Contextual(ctx), axs[k].axiom)
  {
    if |axs| == 0 then "" else AxiomLine(ctx, axs[0]) + Lines(ctx, axs[1..])
  }

  /** The ontology IRI on its own line, then the version IRI on the next, led by a space. */
  function Header(ctx: Context, id: OntologyId): string
  {
    match id.iri
    case None => ""
    case Some(iri) =>
      RenderIri(Contextual(ctx), iri) + "\n"
        + (match id.viri
           case Some(viri) => " " + RenderIri(Contextual(ctx), viri) + "\n"
           case None => "")
  }

  /**
   * An ontology: `Ontology(`, the header, the body in write order one axiom
   * per line, and `)`.
   */
  function RenderOntology(ctx: Context, o: Ontology): (r: string)
    requires OntologyOk(ctx, o)
    ensures |r| >= 10 && r[..9] == "Ontology(" && r[|r| - 1] == ')'
  {
    WriteOrderPermutes(o.axioms);
    WriteOrderOk(ctx, o.axioms);
    "Ontology(" + Header(ctx, o.id) + Lines(ctx, WriteOrder(o.axioms)) + ")"
  }

  lemma WriteOrderOk(ctx: Context, axs: seq<AnnotatedAxiom>)
    requires forall k :: 0 <= k < |axs| ==> AxiomOk(Contextual(ctx), axs[k].axiom)
    ensures forall k :: 0 <= k < |WriteOrder(axs)| ==> AxiomOk(Contextual(ctx), WriteOrder(axs)[k].axiom)
  {
    WriteOrderPermutes(axs);
    forall k | 0 <= k < |WriteOrder(axs)| ensures AxiomOk(Contextual(ctx), WriteOrder(axs)[k].axiom) {
      assert WriteOrder(axs)[k] in multiset(axs);
    }
  }

  lemma EmptyOntologyText(ctx: Context)
    ensures RenderOntology(ctx, EmptyOntology) == "Ontology()"
  {
  }

  /** Without an ontology IRI the version IRI is not written. */
  lemma VersionNeedsIri(ctx: Context, o: Ontology)
    requires OntologyOk(ctx, o) && o.id.iri.None?
    ensures RenderOntology(ctx, o) == RenderOntology(ctx, o.(id := OntologyId(None, None)))
  {
  }

  lemma {:induction false} LinesAgree(c1: Context, c2: Context, axs: seq<AnnotatedAxiom>)
    requires SameIris(Contextual(c1), Contextual(c2))
    requires forall k :: 0 <= k < |axs| ==> AxiomOk(Contextual(c1), axs[k].axiom)
    requires forall k :: 0 <= k < |axs| ==> AxiomOk(Contextual(c2), axs[k].axiom)
    ensures Lines(c1, axs) == Lines(c2, axs)
    decreases |axs|
  {
    if |axs| != 0 {
      AxiomLineAgree(c1, c2, axs[0]);
      LinesAgree(c1, c2, axs[1..]);
    }
  }

  lemma AxiomLineAgree(c1: Context, c2: Context, aa: AnnotatedAxiom)
    requires SameIris(Contextual(c1), Contextual(c2))
    requires AxiomOk(Contextual(c1), aa.axiom) && AxiomOk(Contextual(c2), aa.axiom)
    ensures AxiomLine(c1, aa) == AxiomLine(c2, aa)
  {
    if Section(aa) < 2 {
      AxiomAgree(Contextual(c1), Contextual(c2), aa.axiom, None, None);
    } else {
      AxiomAgree(Contextual(c1), Contextual(c2), aa.axiom, Some(aa.ann), Some(aa.ann));
    }
  }

  /** Two contexts that write every IRI alike write every ontology alike. */
  lemma OntologyAgree(c1: Context, c2: Context, o: Ontology)
    requires SameIris(Contextual(c1), Contextual(c2))
    requires OntologyOk(c1, o) && OntologyOk(c2, o)
    ensures RenderOntology(c1, o) == RenderOntology(c2, o)
  {
    WriteOrderOk(c1, o.axioms);
    WriteOrderOk(c2, o.axioms);
    LinesAgree(c1, c2, WriteOrder(o.axioms));
    if o.id.iri.Some? {
      assert RenderIri(Contextual(c1), o.id.iri.value) == RenderIri(Contextual(c2), o.id.iri.value);
      if o.id.viri.Some? {
        assert RenderIri(Contextual(c1), o.id.viri.value) == RenderIri(Contextual(c2), o.id.viri.value);
      }
    }
  }

  /**
   * A prefix table that abbreviates no IRI leaves every IRI in its full,
   * bracketed form: the ontology is written as without a table.
   */
  lemma NoAbbreviationFullForm(ctx: Context, o: Ontology)
    requires ctx.shrink.Some? ==> forall t :: ctx.shrink.value(t).None?
    requires OntologyOk(ctx, o) && OntologyOk(NoContext, o)
    ensures RenderOntology(ctx, o) == RenderOntology(NoContext, o)
  {
    assert SameIris(Contextual(ctx), Contextual(NoContext)) by {
      forall iri: Iri ensures RenderIri(Contextual(ctx), iri) == RenderIri(Contextual(NoContext), iri) {
        if ctx.shrink.Some? {
          assert ctx.shrink.value(iri.text).None?;
        }
      }
    }
    OntologyAgree(ctx, NoContext, o);
  }

  const OboNamespace := "http://purl.obolibrary.org/obo/"

  /** An abbreviation that knows the single prefix `obo`. */
  function OboShrink(iri: string): Option<string>
  {
    if |OboNamespace| <= |iri| && iri[..|OboNamespace|] == OboNamespace then Some("obo:" + iri[|OboNamespace|..])
    else None
  }

  /** The table abbreviates every IRI in the `obo` namespace. */
  lemma OboShrinks(local: string)
    ensures OboShrink(OboNamespace + local) == Some("obo:" + local)
  {
    var iri := OboNamespace + local;
    assert iri[..|OboNamespace|] == OboNamespace;
    assert iri[|OboNamespace|..] == local;
  }

  /** A declaration is its entity keyword around the IRI, inside `Declaration(…)`. */
  lemma DeclarationText(g: Generation, k: EntityKind, iri: Iri, ann: Option<seq<Annotation>>)
    ensures RenderAxiom(g, Declare(k, iri), ann) == "Declaration(" + EntityKeyword(k) + "(" + RenderIri(g, iri) + "))"
  {
    assert Join([RenderIri(g, iri)]) == RenderIri(g, iri);
  }

  /** A declaration of a class under a known prefix is abbreviated. */
  lemma AbbreviatedExample()
    ensures RenderAxiom(Contextual(Context(Some(OboShrink))), Declare(ClassKind, Iri(OboNamespace + "BFO_0000001")), None)
            == "Declaration(Class(obo:BFO_0000001))"
  {
    OboShrinks("BFO_0000001");
    DeclarationText(Contextual(Context(Some(OboShrink))), ClassKind, Iri(OboNamespace + "BFO_0000001"), None);
  }

  /** Literals are written quoted, with `"` and `\` escaped. */
  lemma EscapedLiteralExample()
    ensures RenderLiteral(Contextual(NoContext), SimpleLiteral("test\"")) == "\"test\\\"\""
  {
    Quoting.EscapePlain("test");
    Quoting.EscapeAppend("test", "\"");
    assert "test\"" == "test" + "\"";
  }
}
