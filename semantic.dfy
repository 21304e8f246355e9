/**
 * Semantic objects: what the connector classes hold once built. An object
 * refers to another built object by its place in the importer's object table,
 * so forward and circular references are plain values.
 */
module Semantic {
  import opened Wrappers
  import opened Rdf
  import opened Ontology

  /** What a statement assigns: a built object, or the object term left as it came. */
  datatype Value = Ref(target: nat) | Raw(term: Term)

  /**
   * A built object. Scalars are keyed by the name of the writer that set
   * them, which is the fragment of the predicate; collections are keyed by
   * the predicate IRI the semantic property is declared under.
   */
  datatype SemanticObject = SemanticObject(
    kind: Kind,
    id: Option<string>,
    scalars: map<string, Value>,
    collections: map<string, seq<Value>>)

  /** The current elements of a multi-valued property; a collection nothing was added to is empty. */
  function Collection(o: SemanticObject, pred: string): seq<Value>
  {
    if pred in o.collections then o.collections[pred] else []
  }

  /** `clazz.new(*[id].compact)`: a new object with no scalar set and every collection empty. */
  function NewObject(k: Kind, id: Option<string>): (o: SemanticObject)
    ensures o.kind == k && o.id == id
    ensures forall pred :: pred !in o.scalars && Collection(o, pred) == []
  {
    SemanticObject(k, id, map[], map[])
  }

  /** `property.value << value`: one element at the end of one collection, nothing else changed. */
  function Append(o: SemanticObject, pred: string, v: Value): (o': SemanticObject)
    ensures o'.kind == o.kind && o'.id == o.id && o'.scalars == o.scalars
    ensures Collection(o', pred) == Collection(o, pred) + [v]
    ensures forall q :: q != pred ==> Collection(o', q) == Collection(o, q)
  {
    o.(collections := o.collections[pred := Collection(o, pred) + [v]])
  }

  /** A call of the writer `writer=`: that scalar is overwritten, nothing else changed. */
  function Assign(o: SemanticObject, writer: string, v: Value): (o': SemanticObject)
    ensures o'.kind == o.kind && o'.id == o.id && o'.collections == o.collections
    ensures writer in o'.scalars && o'.scalars[writer] == v
    ensures forall w :: w != writer ==> (w in o'.scalars <==> w in o.scalars)
    ensures forall w :: w != writer && w in o.scalars ==> o'.scalars[w] == o.scalars[w]
  {
    o.(scalars := o.scalars[writer := v])
  }
}
