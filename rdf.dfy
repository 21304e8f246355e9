/**
 * RDF terms and statements, as the triple store hands them to the importer.
 * The JSON-LD to RDF conversion itself is not part of this model.
 */
module Rdf {
  import opened Wrappers

  /** A node of the graph: a named resource, an anonymous (blank) node or a literal. */
  datatype Term =
    | Iri(uri: string)
    | Blank(tag: string)
    | Literal(lexical: string, dtype: string)

  /** A triple; the predicate is always an IRI, kept here as its string. */
  datatype Statement = Statement(subj: Term, pred: string, obj: Term)

  /** The RDF syntax namespace, without its trailing `#`. */
  const RdfNamespace: string := "http://" + "www.w3.org/1999/02/22-rdf-syntax-ns"

  /** `RDF.type`, the predicate of type statements. */
  const RdfType: string := RdfNamespace + "#" + "type"

  predicate IsTypeStatement(st: Statement)
  {
    st.pred == RdfType
  }

  /**
   * The `value` of a term: the IRI string, the lexical form of a literal,
   * and nothing for a blank node, which has no external identifier.
   */
  function TermValue(t: Term): (v: Option<string>)
    ensures v.None? <==> t.Blank?
    ensures t.Iri? ==> v == Some(t.uri)
    ensures t.Literal? ==> v == Some(t.lexical)
  {
    match t
    case Iri(u) => Some(u)
    case Blank(_) => None
    case Literal(lex, _) => Some(lex)
  }

  /** The fragment of an IRI: everything after its first `#`, or nothing when it has none. */
  function Fragment(iri: string): (f: Option<string>)
    ensures f.None? <==> '#' !in iri
    ensures f.Some? ==> |f.value| < |iri|
  {
    if iri == [] then None
    else if iri[0] == '#' then Some(iri[1..])
    else Fragment(iri[1..])
  }

  /** An IRI written as a namespace without `#`, a `#`, and a local name has that local name as fragment. */
  lemma {:induction false} FragmentOfLocalName(namespace: string, local: string)
    requires '#' !in namespace
    ensures Fragment(namespace + "#" + local) == Some(local)
  {
    if namespace == [] {
      assert namespace + "#" + local == ['#'] + local;
    } else {
      assert (namespace + "#" + local)[1..] == namespace[1..] + "#" + local;
      FragmentOfLocalName(namespace[1..], local);
    }
  }
}
