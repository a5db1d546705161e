/**
 * The prefix table used to expand and abbreviate IRIs (section 2.4 of the
 * OWL 2 Functional-Style Syntax): an optional default namespace and named
 * prefixes kept in insertion order. Expansion is a lookup followed by a
 * concatenation.
 */
module Curie {
  import opened Wrappers

  datatype ExpansionError = Invalid | MissingDefault

  /** A compact IRI: an optional prefix name and a local reference. */
  datatype Curie = Curie(prefix: Option<string>, reference: string)

  datatype PrefixMapping = PrefixMapping(default: Option<string>, mapping: seq<(string, string)>)

  const Empty := PrefixMapping(None, [])

  /** The blank-node prefix, which a table may not bind. */
  const ReservedPrefix := "_"

  function Lookup(m: seq<(string, string)>, name: string): (r: Option<string>)
    ensures r.Some? <==> exists k :: 0 <= k < |m| && m[k].0 == name
  {
    if |m| == 0 then None
    else if m[0].0 == name then Some(m[0].1)
    else Lookup(m[1..], name)
  }

  /**
   * Binds `name` to `value`: an existing binding is updated where it stands,
   * a new one is appended.
   */
  function Insert(m: seq<(string, string)>, name: string, value: string): (r: seq<(string, string)>)
    ensures Lookup(r, name) == Some(value)
    ensures forall other :: other != name ==> Lookup(r, other) == Lookup(m, other)
    ensures |r| == if Lookup(m, name).Some? then |m| else |m| + 1
  {
    if |m| == 0 then [(name, value)]
    else if m[0].0 == name then [(name, value)] + m[1..]
    else [m[0]] + Insert(m[1..], name, value)
  }

  /** Binds a named prefix; the reserved blank-node prefix is refused. */
  function AddPrefix(pm: PrefixMapping, name: string, value: string): (r: Result<PrefixMapping, ExpansionError>)
    ensures r.Err? <==> name == ReservedPrefix
    ensures r.Err? ==> r.error == Invalid
    ensures r.Ok? ==> r.value.default == pm.default && r.value.mapping == Insert(pm.mapping, name, value)
  {
    if name == ReservedPrefix then Err(Invalid)
    else Ok(pm.(mapping := Insert(pm.mapping, name, value)))
  }

  function SetDefault(pm: PrefixMapping, value: string): (r: PrefixMapping)
    ensures r.default == Some(value) && r.mapping == pm.mapping
  {
    pm.(default := Some(value))
  }

  /**
   * Expands a compact IRI: a named prefix must be bound, an unprefixed one
   * needs a default namespace; the namespace is followed by the reference.
   */
  function ExpandCurie(pm: PrefixMapping, c: Curie): (r: Result<string, ExpansionError>)
    ensures c.prefix.Some? ==> (r.Ok? <==> Lookup(pm.mapping, c.prefix.value).Some?)
    ensures c.prefix.None? ==> (r.Ok? <==> pm.default.Some?)
    ensures r.Ok? ==> exists ns :: (r.value == ns + c.reference
      && (if c.prefix.Some? then Lookup(pm.mapping, c.prefix.value) == Some(ns) else pm.default == Some(ns)))
    ensures r.Err? ==> r.error == (if c.prefix.Some? then Invalid else MissingDefault)
  {
    match c.prefix
    case Some(p) =>
      (match Lookup(pm.mapping, p)
       case Some(ns) => Ok(ns + c.reference)
       case None => Err(Invalid))
    case None =>
      (match pm.default
       case Some(ns) => Ok(ns + c.reference)
       case None => Err(MissingDefault))
  }

  /**
   * After a successful `AddPrefix`, the new name expands against the new
   * namespace and every other compact IRI expands as before.
   */
  lemma ExpandAfterAdd(pm: PrefixMapping, name: string, value: string, c: Curie)
    requires AddPrefix(pm, name, value).Ok?
    ensures c.prefix == Some(name) ==>
      ExpandCurie(AddPrefix(pm, name, value).value, c) == Ok(value + c.reference)
    ensures c.prefix != Some(name) ==>
      ExpandCurie(AddPrefix(pm, name, value).value, c) == ExpandCurie(pm, c)
  {
  }
}
