# horned-functional: the OWL 2 Functional-Style Syntax core, in Dafny

This project models the core of `horned-functional`, the crate that reads and
writes OWL 2 ontologies in the Functional-Style Syntax. It proves properties of
that model. Both directions are pure functions:

- **Rendering (model → text).** There are two generations of the renderer:
  - the contextual one (`as_ofn.rs`) abbreviates IRIs through a prefix table;
  - the context-free one (`to_ofn.rs`) always writes IRIs in full.

  Both are modelled by one family of functions over `Generation = Contextual(ctx) | ContextFree`
  (`render.dfy`). Where the two generations differ, the model branches explicitly:
  - the enumeration keyword;
  - the spacing of a key;
  - the annotation slot;
  - the shapes the context-free generation does not implement.

  `as_ofn.dfy` adds annotated axioms, prefix tables and the ontology layout.
  `to_ofn.dfy` proves how the two generations relate.
- **Reading (text → model).** The grammar engine is a parameter. Its output is a
  rule-tagged tree `Pair(rule, text, inner)` (`parse_tree.dfy`).
  - `from_pair.dfy` converts such trees into model values. This covers:
    - quoted strings, IRIs, literals, annotations, imports and ontologies;
    - the two-stage document reading: the prefix block first, then the body against the table built from it.
  - `from_ofn.dfy` is the complete-text entry point, which refuses unread trailing input.
  - `from_fn_str.dfy` is the older entry point, which tries candidate rules in order.
- **Errors** (`errors.dfy`): the four error variants, and the conversions into them.
- **Shared pieces:**
  - `quoting.dfy`: quoting and unquoting of strings;
  - `text.dfy`: space-joined collections, `str::replace`, `str::trim`, decimal display;
  - `curie.dfy`: the prefix table, with expansion as lookup plus concatenation;
  - `owl.dfy`: the OWL datatypes;
  - `wrappers.dfy`: `Option` and `Result`.

The headline property is `Quoting.UnescapeQuoted`: reading back a quoted string gives exactly the
original text. `FromPair.LiteralRoundTrip` and `FromPair.AnnotationRoundTrip` lift it to literals and
annotations. They read the tree of a value whose text is the context-free rendering, and get the value back.

The quirks of the source are modelled as written, and where they matter they are proved as such:
- an exact data cardinality is written with the `DataMaxCardinality` keyword;
- the contextual generation writes an enumeration of literals as `DataUnionOf`;
- an annotated axiom always fills the annotation slot, so an empty set still leaves a space after `(`.

The files do not all come from one version of the crate:
- `from_pair.rs` and `from_fn_str.rs` pass a `Build` and a prefix table;
- `from_ofn.rs` passes a `Context`.

The model passes the prefix table in every case, and drops `Build` (IRI interning is the identity here).

## Model

| member | source | states |
|---|---|---|
| Quoting.Quote | src/as_ofn.rs:15-28 | The find-and-escape loop writes exactly the reference quoted form. That form is an opening `"`, then every character in order with each `\` doubled and each `"` preceded by `\`, then a closing `"`. |
| Quoting.FindSpecial | src/as_ofn.rs:17 | The search returns the first `\` or `"`, with none before it. It returns nothing exactly when the text holds neither. |
| Quoting.UnescapeQuoted | src/from_pair.rs:210-216 | For every text, dropping the quotes and undoing `\\` then `\"` recovers the text that was quoted. |
| Quoting.FirstPass | src/from_pair.rs:215 | The first replacement (`\\` → `\`) applied to an escaped text undoes exactly the backslash escapes and leaves the quote escapes. |
| Quoting.SecondPass | src/from_pair.rs:215 | The second replacement (`\"` → `"`) then undoes exactly the quote escapes. |
| Text.Join | src/as_ofn.rs:531-559 | A collection is written as its members with one space between neighbours. Its length is the members' total plus one per gap, and an empty collection writes nothing. |
| Render.WriteJoined | src/as_ofn.rs:531-559 | The collection writer writes a space before every member but the first. It produces exactly the joined text. |
| Text.SplitJoin | src/as_ofn.rs:531-559 | When no member holds a space, splitting the written collection on spaces gives back the members, in order. |
| Text.Decimal | src/as_ofn.rs:286-363 | A cardinality is written as a non-empty string of decimal digits with no leading zero. |
| Text.DecimalRoundTrip | src/as_ofn.rs:286-363 | The digits written for a cardinality denote that cardinality. |
| Render.AnnotationsAfterKeyword | src/as_ofn.rs:80-101 | In the contextual text of an annotated axiom, the annotations come right after the axiom's keyword and `(`, followed by a space. Everything else is the unannotated text of the same axiom. |
| Render.SubClassOfText | src/as_ofn.rs:80-133 | A subclass axiom is `SubClassOf(`, then the subclass, a space and the superclass, then `)`. In the contextual generation with an annotation slot, the annotations and a space come first. |
| Render.ExactCardinalityWrittenAsMax | src/as_ofn.rs:355-363 | An exact and a maximum data cardinality with the same operands are different values but are written as the same text. |
| Render.EmptyOneOfWrittenAsUnion | src/as_ofn.rs:376-388 | The contextual generation writes an empty enumeration of literals as the text of an empty union. |
| Render.KeyGroupsPartition | src/as_ofn.rs:418-450 | Every member of a key lands in exactly one of the two groups (as multisets). |
| Render.KeyGroupAppend | src/as_ofn.rs:418-450 | Grouping commutes with concatenation, so each group keeps the key's order. |
| Render.WriteKeyGroup | src/as_ofn.rs:418-450 | The group writer walks the whole key and counts the members it writes to place separators. It writes exactly the space-joined members of the wanted kind. |
| Render.LiteralAgree | src/as_ofn.rs:475-492 | The text of a literal depends on the generation only through how its datatype IRI is written. |
| Render.DataRangeAgree | src/as_ofn.rs:368-399 | Two generations write a data range alike when they write IRIs alike and agree on the enumeration keyword wherever an enumeration occurs. |
| Render.ClassExpressionAgree | src/as_ofn.rs:234-366 | The same holds for class expressions, through every nested class expression and data range. |
| Render.OperandsAgree | src/as_ofn.rs:561-600 | The same holds for the operands of every templated axiom shape. |
| Render.AnnotationAxiomAgree | src/as_ofn.rs:146-156 | Annotation assertions and ontology annotations are written the same whatever annotation slot they are given. |
| Render.HasKeyAgree | src/as_ofn.rs:418-450 | Two generations of the same kind that write IRIs alike write every key alike. |
| Render.AxiomAgree | src/as_ofn.rs:174-232 | Two generations write an axiom alike when they write IRIs alike, agree on the enumeration keyword and the key spacing where these occur, and write the same annotations. |
| Render.ClassExpressionOkWidens | src/to_ofn.rs:175-233 | Every class expression the context-free generation can write, the contextual one can write too. |
| Render.DataRangeOkWidens | src/to_ofn.rs:235-284 | The same holds for data ranges. Facet restrictions are written only by the contextual generation. |
| AsOfn.EmptyAnnotationsLeaveSpace | src/as_ofn.rs:140-144 | An axiom annotated with the empty set is written as its unannotated text with a space inserted after the opening parenthesis. |
| AsOfn.OwnWritersDropAnnotations | src/as_ofn.rs:41-78 | Declarations, annotation assertions, ontology annotations and keys are written without their annotations. |
| AsOfn.RenderPrefixMapping | src/as_ofn.rs:522-529 | A prefix table is written as nothing exactly when it has no bindings. |
| AsOfn.PrefixLineAt | src/as_ofn.rs:522-529 | The binding at position k of a table is written as the line `Prefix(name:=value)` and a line break. All earlier bindings are written before it and all later ones after it. |
| AsOfn.PrefixMappingAppend | src/as_ofn.rs:522-529 | The text of a table whose bindings are two runs one after the other is the text of the first run followed by that of the second. |
| AsOfn.DefaultNotWritten | src/as_ofn.rs:522-529 | The default namespace is never written: two tables with the same bindings are written alike whatever their defaults. |
| AsOfn.PrefixLinePerBinding | src/as_ofn.rs:522-529 | A table whose names and values hold no line break is written as exactly one line per binding. |
| AsOfn.OfSection | src/as_ofn.rs:612-627 | Each of the three body passes selects only axioms of its own section. |
| AsOfn.WriteOrderPermutes | src/as_ofn.rs:612-627 | The body writes every axiom of the ontology exactly as many times as it occurs. |
| AsOfn.WriteOrderSorted | src/as_ofn.rs:612-627 | Imports are written before ontology annotations, which are written before every other axiom. |
| AsOfn.WriteOrderStable | src/as_ofn.rs:612-627 | Within each section the axioms keep their iteration order. |
| AsOfn.RenderOntology | src/as_ofn.rs:602-631 | An ontology's text starts with `Ontology(` and ends with `)`. |
| AsOfn.EmptyOntologyText | src/as_ofn.rs:602-631 | The empty ontology is written `Ontology()`. |
| AsOfn.VersionNeedsIri | src/as_ofn.rs:606-611 | Without an ontology IRI the version IRI is not written. |
| AsOfn.OntologyAgree | src/as_ofn.rs:602-631 | Two contexts that write every IRI alike write every ontology alike. |
| AsOfn.NoAbbreviationFullForm | src/as_ofn.rs:452-463 | A prefix table that abbreviates no IRI writes the ontology exactly as no table does, with every IRI in bracketed form. |
| AsOfn.AbbreviatedExample | src/as_ofn.rs:758-776 | With the `obo` prefix known, the class `BFO_0000001` is declared as `Declaration(Class(obo:BFO_0000001))`. |
| AsOfn.EscapedLiteralExample | src/as_ofn.rs:705-723 | The literal `test"` is written `"test\""`. |
| ToOfn.FullIrisAlike | src/to_ofn.rs:320-324 | The context-free generation writes every IRI as the contextual generation does without a table. |
| ToOfn.AxiomOkWidens | src/to_ofn.rs:115-173 | Every axiom the context-free generation can write, the contextual one can write too. |
| ToOfn.ClassExpressionMatchesContextual | src/to_ofn.rs:175-233 | A class expression without an enumeration of literals is written identically by the context-free generation and by the contextual one without a table. |
| ToOfn.AxiomMatchesContextual | src/to_ofn.rs:44-92 | An axiom other than a key, without an enumeration of literals, is written by the context-free generation as the contextual generation writes it without a table and without a slot. |
| ToOfn.HasKeySpacing | src/to_ofn.rs:286-318 | The contextual text of a key is the context-free text with one space inserted after the class expression. |
| ToOfn.OneOfKeywords | src/to_ofn.rs:263-272 | An enumeration of literals is `DataOneOf` in the context-free text and `DataUnionOf` in the contextual text. The rest is identical. |
| Errors.FromPest | src/error.rs:88-92 | A grammar error becomes a `Pest` error that carries it unchanged. |
| Errors.FromExpansion | src/error.rs:94-98 | An expansion error becomes an `Expansion` error that carries it unchanged. |
| Errors.Custom | src/error.rs:77-85 | A custom error is a `Pest` error with the `CustomError` variant, holding the message and located at the given span. |
| Errors.ConversionsKeepKind | src/error.rs:9-98 | Grammar and expansion errors never convert to the same error. A converted grammar error equals a custom one exactly when it has that message and span. |
| Curie.ExpandCurie | src/from_pair.rs:76-85 | A prefixed compact IRI expands exactly when its prefix is bound, and an unprefixed one exactly when a default exists. The result is the namespace followed by the reference; the failure is `Invalid` or `MissingDefault` accordingly. |
| Curie.AddPrefix | src/from_pair.rs:196-198 | Binding a prefix fails, with `Invalid`, exactly for the reserved blank-node prefix `_`. Otherwise it rebinds the name and keeps the default. |
| Curie.Insert | src/from_pair.rs:196-198 | After binding, the name looks up to the new value and every other name looks up as before. |
| Curie.ExpandAfterAdd | src/from_pair.rs:189-204 | After a successful binding, the new prefix expands against the new namespace and every other compact IRI expands as before. |
| FromPair.StringFromPair | src/from_pair.rs:210-216 | Reading a quoted string never fails. |
| FromPair.StringRoundTrip | src/from_pair.rs:210-216 | The tree of a quoted string is read back as the original text. |
| FromPair.IriFromPair | src/from_pair.rs:69-93 | A full IRI is read verbatim. An abbreviated IRI succeeds exactly when its compact IRI expands, gives the expansion, and otherwise fails with that expansion error. No other error arises. |
| FromPair.FullIriRoundTrip | src/from_pair.rs:86-89 | The tree of a bracketed IRI is read back as that IRI, whatever the prefix table. |
| FromPair.AbbreviatedIriExpands | src/from_pair.rs:76-85 | `prefix:local` reads as its expansion, or fails with the expansion's error. There is no fallback to the unexpanded text. |
| FromPair.BoundPrefixExample | src/from_pair.rs:257-274 | With `ex` bound to `http://example.com/path#`, `ex:ref` reads as `http://example.com/path#ref`. |
| FromPair.UnboundPrefixExample | src/error.rs:55-56 | With an empty table, `example:Entity` fails with an `Expansion` error. |
| FromPair.LiteralFromPair | src/from_pair.rs:95-133 | Each literal rule is read as its own record. A typed literal holds the unescaped text and the datatype IRI read; it succeeds exactly when that IRI does, and otherwise fails with the IRI's error. A literal with a language holds the unescaped text and the tag after `@`, trimmed. A plain literal holds only the unescaped text. |
| FromPair.LanguageTagTrimmed | src/from_pair.rs:111 | A language tag written with surrounding white space is read back without it. |
| FromPair.LiteralCorrespondence | src/from_pair.rs:95-133 | The converter's literal record and the model's literal correspond one to one. |
| FromPair.LiteralRoundTrip | src/from_pair.rs:95-133 | The tree of a literal written by the context-free generation reads back as that literal, when its language tag has no surrounding white space. |
| FromPair.AnnotationValueFromPair | src/from_pair.rs:49-60 | An IRI child gives the IRI value read from it, and a literal child gives the literal read from it. Either succeeds exactly when its child does, and otherwise fails with the child's error. |
| FromPair.MetaAnnotationsOk | src/from_pair.rs:23-28 | The nested annotations read exactly when every one of them does. |
| FromPair.MetaAnnotationsValues | src/from_pair.rs:23-28 | Nested annotations that read give, position by position, the annotation read from each node. |
| FromPair.MetaAnnotationsFirstError | src/from_pair.rs:23-28 | Nested annotations that fail carry the error of the first node that fails; every node before it reads. |
| FromPair.AnnotationFromPair | src/from_pair.rs:19-35 | An annotation reads successfully only if all its nested annotations do. Its only errors are expansion errors. |
| FromPair.AnnotationParts | src/from_pair.rs:19-35 | An annotation reads exactly when its nested annotations, its property and its value all do. It holds the property and the value read. Otherwise it fails with the error of the first of the three that fails. |
| FromPair.MetaAnnotationsDropped | src/from_pair.rs:19-35 | Nested annotations that convert leave no trace in the result. One that fails makes the annotation fail with its error. |
| FromPair.AnnotationRoundTrip | src/from_pair.rs:19-35 | The tree of an annotation written by the context-free generation reads back as that annotation. |
| FromPair.AnnotationsRoundTrip | src/from_pair.rs:23-28 | The trees of a sequence of annotations read back as that sequence, in order. |
| FromPair.FacetFromIri | src/error.rs:61-73 | An IRI reads as the facet it names. An IRI that names none gives `InvalidFacet` carrying the IRI. |
| FromPair.FacetRoundTrip | src/error.rs:61-73 | No IRI names two facets, so every facet is read back from its IRI. |
| FromPair.NonFacetExample | src/error.rs:69-70 | `http://example.com/thing` is rejected with `InvalidFacet`. |
| FromPair.ImportFromPair | src/from_pair.rs:62-67 | An import reads exactly when its IRI does, as the import of that IRI. Otherwise it fails with the IRI's expansion error. |
| FromPair.ImportRoundTrip | src/from_pair.rs:245-255 | `Import(<iri>)` reads as the import of that IRI. |
| FromPair.OntologyAnnotationFromPair | src/from_pair.rs:175-180 | An ontology annotation reads as an ontology annotation axiom. Its only errors are expansion errors. |
| FromPair.OntologyAnnotationHolds | src/from_pair.rs:175-180 | An ontology annotation reads exactly when the annotation it holds does, as that annotation. Otherwise it fails with the annotation's error. |
| FromPair.OntologyAnnotationRoundTrip | src/from_pair.rs:175-180 | The tree of an annotation reads back as the ontology annotation holding it. |
| FromPair.InsertAxiom | src/from_pair.rs:156-164 | Inserting into the ontology adds the unannotated axiom unless it is present. The store stays free of duplicates. |
| FromPair.SectionAxioms | src/from_pair.rs:156-164 | The store built from the imports and then the ontology annotations holds exactly those axioms, each once and unannotated. |
| FromPair.HeaderFromPairs | src/from_pair.rs:143-155 | The ontology IRI is present exactly when the header opens with one, and is the IRI read from that node. The version IRI is present exactly when a second header node follows, and is the IRI read from it. Reading fails exactly when either IRI does, with an expansion error. |
| FromPair.AssembleOntology | src/from_pair.rs:139-172 | An ontology is read exactly when its header, its imports and its ontology annotations all are. Its identity is the header's, and its axioms are exactly the imports and ontology annotations, once each and unannotated. Otherwise it fails with the error of the first part that fails. |
| FromPair.OntologyFromPair | src/from_pair.rs:135-173 | The identity of an ontology read is the one its header spells. Errors are expansion errors. |
| FromPair.OntologyContents | src/from_pair.rs:156-172 | The axioms of an ontology read are exactly its converted imports and ontology annotations, each once and unannotated. |
| FromPair.OntologyReadFails | src/from_pair.rs:139-172 | Reading an ontology fails exactly when its header, its imports or its ontology annotations fail. |
| FromPair.OntologyFirstError | src/from_pair.rs:139-172 | An ontology that fails carries the error of the first of header, imports and ontology annotations that fails. |
| FromPair.HeaderRoundTrip | src/from_pair.rs:143-155 | The header of an ontology identity written in full reads back as that identity, both IRIs included. |
| FromPair.AxiomSectionIgnored | src/from_pair.rs:166-169 | Whatever the axiom section holds, the ontology read is the same. |
| FromPair.DeclarePrefix | src/from_pair.rs:193-201 | A declaration fails, with `Expansion(Invalid)`, exactly when it names the reserved prefix. |
| FromPair.PrefixBlock | src/from_pair.rs:189-204 | The block fails exactly when some declaration names the reserved prefix, and then with `Expansion(Invalid)`. |
| FromPair.LastDeclarationWins | src/from_pair.rs:189-204 | After the block, each prefix, and the default, is bound to its last declaration's value; undeclared names keep their binding. |
| FromPair.DocumentFromPair | src/from_pair.rs:182-207 | The table returned is the one the document's prefix block builds from an empty table, and the ontology is read against it. Reading fails exactly when the block fails or the ontology fails against the block's table. Errors are expansion errors. |
| FromPair.DocumentBindings | src/from_pair.rs:187-206 | In the table a document returns, each prefix and the default are bound to their last declaration in the document. Names the document does not declare are unbound. |
| FromPair.DocumentExample | src/from_pair.rs:276-296 | `Prefix(ex:=<http://example.com/>) Prefix(:=<http://default.com/>) Ontology()` gives the empty ontology, `ex` bound and the default set. |
| FromOfn.FromOfnCtx | src/from_ofn.rs:53-69 | A grammar error is passed through unchanged. A match that stops short gives a `remaining input` error spanning the unread tail. Success means the whole text was consumed, and the result is the conversion of the first node. |
| FromOfn.FromOfnDefault | src/from_ofn.rs:20-23 | The default context is the empty prefix table. |
| FromOfn.RemainingInputIgnoresConverter | src/from_ofn.rs:53-69 | When input remains, the converter is never consulted and the result is a grammar error. |
| FromOfn.TwoClassesExample | src/from_ofn.rs:117-133 | Two class declarations read as one fail with the custom `remaining input` variant. |
| FromOfn.DocumentFromOfn | src/from_ofn.rs:28-46 | A grammar error is passed through as a `Pest` error. A match that stops short fails with a `remaining input` error spanning the unread tail. A completely consumed text gives the document read from the first node. |
| FromOfn.DocumentIsCompleteTextReading | src/from_ofn.rs:28-46 | The document entry point is the complete-text reading with the document converter. |
| FromOfn.DocumentIgnoresContext | src/from_pair.rs:187-188 | A document is read the same whatever prefix table the caller supplies. |
| FromOfn.UnterminatedExample | src/error.rs:23-24 | `Ontology(`, which the grammar refuses, fails with a `Pest` error. |
| FromFnStr.FirstAccepted | src/from_fn_str.rs:34-38 | The first rule the grammar accepts: all earlier rules fail. Nothing is returned exactly when every rule fails. |
| FromFnStr.FromOfnWith | src/from_fn_str.rs:32-41 | The trial loop returns the conversion under the first accepting rule. Later rules are never tried. |
| FromFnStr.FromOfnStr | src/from_fn_str.rs:25-28 | The string entry point is the trial loop with an empty prefix table. |
| FromFnStr.TrailingTextAccepted | src/from_fn_str.rs:35-36 | A match that stops short of the end is still accepted by the trial loop, where the complete-text reading refuses it. |

## Left out

- The grammar (`parser.rs` and its pest grammar) is a parameter. The shape of the trees it produces is stated as preconditions (`IriShaped`, `LiteralShaped`, `OntologyShaped`, `DocumentShaped`…), so the `unwrap()`s on tree shape cannot fail.
- `debug_assert!` rule checks are not modelled. They are not preconditions; one of them, at `from_pair.rs:177`, checks the wrong rule.
- `Build` and IRI interning are the identity and do not appear.
- `from_ofn_with_build` and `from_ofn_with_prefixes`: `from_ofn_with_build` is `FromFnStr.FromOfnStr`, and `from_ofn_with_prefixes` is `FromFnStr.FromOfnWith`. They differ from these only in the `Build` they pass.
- `lib.rs`: `from_reader` and `from_file` are I/O and are left out. `from_str` is `FromFnStr.FromOfnStr` at the document type.
- The curie crate:
  - `shrink_iri` is an uninterpreted partial function in the context;
  - `expand_curie` is lookup plus concatenation;
  - `add_prefix` is taken to refuse only the blank-node prefix `_`, with `Invalid`;
  - the table keeps bindings in insertion order, and that order is the order `mappings()` yields (the default namespace is not among them).
- Iteration order of `BTreeSet` and of the ontology's axiom store is taken as a given sequence. The ontology's import and annotation views are the kind-filtered subsequences of its full iteration.
- `fmt::Error` propagation: the model's writes cannot fail.
- FromOfn.FromOfnCtx: the source compares and reports the matched length in bytes (`as_str().len()`, `s.len()`) and builds the span from byte offsets. The model measures both in characters, so its `remaining input` span agrees with the source only on ASCII text. Whether input remains is decided the same way.
- FromOfn.DocumentFromOfn: the same character-for-byte caveat applies to its `remaining input` span.
- Quoting.Quote: the source takes the character position found by `chars().enumerate()` as a byte offset into the text. The model works on characters, which agrees with the source only while the text before each special character is ASCII.
- Panicking branches are excluded by precondition:
  - `unimplemented!` for facet restrictions and individuals in the context-free generation (`IndividualOk`, `FacetRestrictionsOk`);
  - anonymous individuals, whose display and annotation values are outside the model;
  - `unreachable!`;
  - the panic when no rule accepts the text (`FromFnStr.FromOfnWith` requires one does).
- `Facet::iri_str` is modelled by `Owl.FacetIri`, with the facet vocabulary of XML Schema plus `rdf:langRange`.
- Declarations are merged into one `Declare(kind, iri)` constructor and the object property characteristics into one constructor. Each writes its own keyword.
- The model renders an axiom only when it matches the source's per-shape template. Several test strings that hold long concrete texts are not restated as lemmas; the shape lemmas above cover them.
- Reading axioms: the source iterates the axiom section but adds nothing, and so does the model (`FromPair.AxiomSectionIgnored`).
