/**
 * The older string entry point: the candidate rules of the target type are
 * tried in order, and the first one the grammar accepts decides the
 * reading. Unlike the complete-text reading, nothing checks that the match
 * covers the whole text.
 */
module FromFnStr {
  import opened Wrappers
  import opened Curie
  import opened ParseTree
  import opened Errors
  import opened FromOfn

  /** The position of the first rule the grammar accepts the text under, if any. */
  function FirstAccepted(rules: seq<Rule>, parse: Parser, s: string): (r: Option<nat>)
    ensures r.Some? ==> r.value < |rules| && parse(rules[r.value], s).Ok?
    ensures r.Some? ==> forall j :: 0 <= j < r.value ==> parse(rules[j], s).Err?
    ensures r.None? ==> forall j :: 0 <= j < |rules| ==> parse(rules[j], s).Err?
  {
    if |rules| == 0 then None
    else if parse(rules[0], s).Ok? then Some(0)
    else match FirstAccepted(rules[1..], parse, s)
      case None => None
      case Some(k) => Some(k + 1)
  }

  /**
   * The trial loop. The text must be accepted under one of the rules (the
   * reader has no error for the opposite case and aborts), and every run
   * that succeeds matches at least one node.
   */
  method FromOfnWith<T>(s: string, rules: seq<Rule>, parse: Parser, convert: Converter<T>, prefixes: PrefixMapping)
    returns (r: Result<T, Error>)
    requires exists k :: 0 <= k < |rules| && parse(rules[k], s).Ok?
    requires forall k :: 0 <= k < |rules| && parse(rules[k], s).Ok? ==> |parse(rules[k], s).value.pairs| >= 1
    ensures FirstAccepted(rules, parse, s).Some?
    ensures r == convert(parse(rules[FirstAccepted(rules, parse, s).value], s).value.pairs[0], prefixes)
  {
    var i := 0;
    while i < |rules|
      invariant 0 <= i <= |rules|
      invariant forall j :: 0 <= j < i ==> parse(rules[j], s).Err?
    {
      var parsed := parse(rules[i], s);
      if parsed.Ok? {
        assert FirstAccepted(rules, parse, s) == Some(i);
        return convert(parsed.value.pairs[0], prefixes);
      }
      i := i + 1;
    }
    assert false;
  }

  /** The entry point with an empty prefix table. */
  method FromOfnStr<T>(s: string, rules: seq<Rule>, parse: Parser, convert: Converter<T>)
    returns (r: Result<T, Error>)
    requires exists k :: 0 <= k < |rules| && parse(rules[k], s).Ok?
    requires forall k :: 0 <= k < |rules| && parse(rules[k], s).Ok? ==> |parse(rules[k], s).value.pairs| >= 1
    ensures FirstAccepted(rules, parse, s).Some?
    ensures r == convert(parse(rules[FirstAccepted(rules, parse, s).value], s).value.pairs[0], Empty)
  {
    r := FromOfnWith(s, rules, parse, convert, Empty);
  }

  /**
   * A match that stops short of the end of the text is still converted:
   * trailing text is ignored by this entry point, where the complete-text
   * reading refuses it.
   */
  lemma TrailingTextAccepted<T>(s: string, rule: Rule, parse: Parser, convert: Converter<T>)
    requires WellParsed(parse(rule, s), s)
    requires parse(rule, s).Ok? && parse(rule, s).value.consumed < |s|
    ensures FirstAccepted([rule], parse, s) == Some(0)
    ensures FromOfnDefault(s, rule, parse, convert).Err?
  {
  }
}
