/**
 * The type registry and the per-type property tables of the Data Food
 * Consortium connector classes that the importer knows about.
 *
 * The registry is the importer's `TYPES` list turned into a static map from
 * ontology type IRI to kind. The property tables and the writer names stand
 * in for the bodies of the connector classes, which are not part of this model.
 */
module Ontology {
  import opened Wrappers
  import opened Rdf

  /** The DFC business ontology namespace, without its trailing `#`. */
  const BusinessOntology: string := "http://" + "static.datafoodconsortium.org" + "/ontologies/DFC_BusinessOntology.owl"

  lemma NamespaceHasNoFragment()
    ensures '#' !in BusinessOntology
  {
    assert '#' !in "static.datafoodconsortium.org";
    assert '#' !in "/ontologies/DFC_BusinessOntology.owl";
  }

  /** The IRI of a local name in the business ontology (`dfc-b:<local>`). */
  function Dfc(local: string): string
  {
    BusinessOntology + "#" + local
  }

  lemma DfcFragment(local: string)
    ensures Fragment(Dfc(local)) == Some(local)
  {
    NamespaceHasNoFragment();
    FragmentOfLocalName(BusinessOntology, local);
  }

  /** An IRI in the namespace determines its local name. */
  lemma DfcInjective(local: string, local': string)
    requires Dfc(local) == Dfc(local')
    ensures local == local'
  {
    var n := |BusinessOntology| + 1;
    assert Dfc(local)[n..] == local;
    assert Dfc(local')[n..] == local';
  }

  /** The registered connector classes. */
  datatype Kind =
    | CatalogItem
    | Enterprise
    | Offer
    | Person
    | QuantitativeValue
    | SuppliedProduct

  /** The local name of each class's ontology type. */
  function LocalName(k: Kind): string
  {
    match k
    case CatalogItem => "CatalogItem"
    case Enterprise => "Enterprise"
    case Offer => "Offer"
    case Person => "Person"
    case QuantitativeValue => "QuantitativeValue"
    case SuppliedProduct => "SuppliedProduct"
  }

  /** The class's own `semanticType`. */
  function SemanticType(k: Kind): string
  {
    Dfc(LocalName(k))
  }

  lemma SemanticTypeInjective(k: Kind, k': Kind)
    requires SemanticType(k) == SemanticType(k')
    ensures k == k'
  {
    DfcInjective(LocalName(k), LocalName(k'));
  }

  /** `type_map`: the kind registered under a type IRI, if any. */
  function TypeMap(uri: string): (r: Option<Kind>)
    ensures forall k :: r == Some(k) <==> uri == SemanticType(k)
  {
    forall k, k' | SemanticType(k) == SemanticType(k') ensures k == k' {
      SemanticTypeInjective(k, k');
    }
    if uri == SemanticType(CatalogItem) then Some(CatalogItem)
    else if uri == SemanticType(Enterprise) then Some(Enterprise)
    else if uri == SemanticType(Offer) then Some(Offer)
    else if uri == SemanticType(Person) then Some(Person)
    else if uri == SemanticType(QuantitativeValue) then Some(QuantitativeValue)
    else if uri == SemanticType(SuppliedProduct) then Some(SuppliedProduct)
    else None
  }

  /** Whether a semantic property holds one value or a collection (`property.value.is_a?(Enumerable)`). */
  datatype Cardinality = Single | Multiple

  /**
   * What a connector class declares: its semantic properties keyed by
   * predicate IRI, and the attribute names `n` it has a writer `n=` for.
   */
  datatype Schema = Schema(properties: map<string, Cardinality>, writers: set<string>)

  /** The schema of every registered class. */
  const DfcSchemas: map<Kind, Schema> := map[
    CatalogItem := Schema(
      map[Dfc("references") := Single, Dfc("sku") := Single, Dfc("stockLimitation") := Single,
          Dfc("offeredThrough") := Multiple],
      {"product", "sku", "stockLimitation"}),
    Enterprise := Schema(
      map[Dfc("name") := Single, Dfc("description") := Single, Dfc("VATnumber") := Single,
          Dfc("defines") := Multiple, Dfc("supplies") := Multiple, Dfc("manages") := Multiple],
      {"name", "description", "vatNumber"}),
    Offer := Schema(
      map[Dfc("offeredItem") := Single, Dfc("offeredTo") := Single, Dfc("hasPrice") := Single,
          Dfc("stockLimitation") := Single],
      {"offeredItem", "offeredTo", "price", "stockLimitation"}),
    Person := Schema(
      map[Dfc("firstName") := Single, Dfc("familyName") := Single, Dfc("affiliates") := Multiple],
      {"firstName", "lastName"}),
    QuantitativeValue := Schema(
      map[Dfc("hasUnit") := Single, Dfc("value") := Single],
      {"hasUnit", "value"}),
    SuppliedProduct := Schema(
      map[Dfc("name") := Single, Dfc("description") := Single, Dfc("hasType") := Single,
          Dfc("hasQuantity") := Single, Dfc("alcoholPercentage") := Single, Dfc("lifetime") := Single,
          Dfc("usageOrStorageCondition") := Single, Dfc("totalTheoreticalStock") := Single,
          Dfc("hasClaim") := Multiple, Dfc("hasAllergenCharacteristic") := Multiple,
          Dfc("hasNutrientCharacteristic") := Multiple, Dfc("referencedBy") := Multiple],
      {"name", "description", "productType", "hasQuantity", "alcoholPercentage", "lifetime",
       "usageOrStorageConditions", "totalTheoreticalStock"})
  ]

  /** `hasSemanticProperty?` together with the property's cardinality. */
  function Property(schemas: map<Kind, Schema>, k: Kind, pred: string): (r: Option<Cardinality>)
    ensures r.Some? <==> k in schemas && pred in schemas[k].properties
    ensures r.Some? ==> r.value == schemas[k].properties[pred]
  {
    if k in schemas && pred in schemas[k].properties then Some(schemas[k].properties[pred]) else None
  }

  /** `respond_to?("#{predicate.fragment}=")`: a predicate without fragment names no setter. */
  function HasSetter(schemas: map<Kind, Schema>, k: Kind, pred: string): (b: bool)
    ensures b <==> k in schemas && Fragment(pred).Some? && Fragment(pred).value in schemas[k].writers
  {
    match Fragment(pred)
    case None => false
    case Some(local) => k in schemas && local in schemas[k].writers
  }

  /** A business-ontology predicate has a setter exactly when its local name is one of the class's writers. */
  lemma DfcSetter(schemas: map<Kind, Schema>, k: Kind, local: string)
    ensures HasSetter(schemas, k, Dfc(local)) <==> k in schemas && local in schemas[k].writers
  {
    DfcFragment(local);
  }

  /** No business-ontology IRI is rdf:type: the two namespaces differ right after `http://`. */
  lemma DfcIsNotRdfType(local: string)
    ensures Dfc(local) != RdfType
  {
    assert Dfc(local)[7] == 's';
    assert RdfType[7] == 'w';
  }

  /** Distinct local names give distinct IRIs. */
  lemma DfcDistinct(local: string, local': string)
    requires local != local'
    ensures Dfc(local) != Dfc(local')
  {
    if Dfc(local) == Dfc(local') {
      DfcInjective(local, local');
    }
  }

  /**
   * No class declares two predicates with the same fragment, so a writer
   * `n=` is reached from at most one declared predicate.
   */
  ghost predicate UniqueWriters(schemas: map<Kind, Schema>)
  {
    forall k, p, q ::
      Property(schemas, k, p).Some? && Property(schemas, k, q).Some? && Fragment(p).Some? && Fragment(p) == Fragment(q)
      ==> p == q
  }

  /** Every predicate the registered classes declare is in the business ontology. */
  lemma DfcPredicates(k: Kind)
    ensures k in DfcSchemas
    ensures forall p :: p in DfcSchemas[k].properties ==> exists local :: p == Dfc(local)
  {
    var props := DfcSchemas[k].properties;
    forall p | p in props
      ensures exists local :: p == Dfc(local)
    {
      var local := p[|BusinessOntology| + 1..];
      assert p == Dfc(local);
    }
  }

  lemma DfcUniqueWriters()
    ensures UniqueWriters(DfcSchemas)
  {
    forall k, p, q | Property(DfcSchemas, k, p).Some? && Property(DfcSchemas, k, q).Some? && Fragment(p).Some? && Fragment(p) == Fragment(q)
      ensures p == q
    {
      DfcPredicates(k);
      var local :| p == Dfc(local);
      var local' :| q == Dfc(local');
      DfcFragment(local);
      DfcFragment(local');
    }
  }
}
