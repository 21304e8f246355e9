/**
 * The supplied-product document of the DFC provider's request spec, as a
 * statement list: a product named "Apple" whose quantity is an anonymous
 * quantitative value of 3 grams. The quantity statement comes before the
 * anonymous node's own type statement, so the reference is a forward one.
 */
module AppleExample {
  import opened Wrappers
  import opened Rdf
  import opened Ontology
  import opened Semantic
  import opened Queries
  import opened Connector
  import opened BuildProperties
  import opened ImportProperties

  const XsdString: string := "http://www.w3.org/2001/XMLSchema#string"
  const XsdDouble: string := "http://www.w3.org/2001/XMLSchema#double"

  const Product: Term := Iri("http://test.host/api/dfc-v1.7/enterprises/6201/supplied_products/0")
  const Quantity: Term := Blank("b0")
  const Gram: Term := Iri("dfc-m:Gram")
  const Apple: Term := Literal("Apple", XsdString)
  const Three: Term := Literal("3.0E0", XsdDouble)

  const ProductType: Statement := Statement(Product, RdfType, Iri(SemanticType(SuppliedProduct)))
  const ProductName: Statement := Statement(Product, Dfc("name"), Apple)
  const ProductDescription: Statement :=
    Statement(Product, Dfc("description"), Literal("A delicious heritage apple", XsdString))
  const ProductKind: Statement := Statement(Product, Dfc("hasType"), Iri("dfc-pt:non-local-vegetable"))
  const ProductQuantity: Statement := Statement(Product, Dfc("hasQuantity"), Quantity)
  const QuantityType: Statement := Statement(Quantity, RdfType, Iri(SemanticType(QuantitativeValue)))
  const QuantityUnit: Statement := Statement(Quantity, Dfc("hasUnit"), Gram)
  const QuantityValue: Statement := Statement(Quantity, Dfc("value"), Three)
  const ProductAlcohol: Statement := Statement(Product, Dfc("alcoholPercentage"), Literal("0.0E0", XsdDouble))
  const ProductLifetime: Statement := Statement(Product, Dfc("lifetime"), Literal("", XsdString))
  const ProductStorage: Statement := Statement(Product, Dfc("usageOrStorageCondition"), Literal("", XsdString))
  const ProductStock: Statement := Statement(Product, Dfc("totalTheoreticalStock"), Literal("0.0E0", XsdDouble))

  /** The statements in the order the document lists them. */
  const AppleStatements: seq<Statement> := [
    ProductType, ProductName, ProductDescription, ProductKind, ProductQuantity,
    QuantityType, QuantityUnit, QuantityValue,
    ProductAlcohol, ProductLifetime, ProductStorage, ProductStock
  ]

  /** Every type names a registered class and every statement's subject is typed somewhere. */
  lemma AppleStatementsWellTyped()
    ensures forall i :: 0 <= i < |AppleStatements| ==> !Unregistered(AppleStatements[i])
    ensures forall i :: 0 <= i < |AppleStatements| ==> Typed(AppleStatements, AppleStatements[i].subj)
  {
    var ss := AppleStatements;
    assert Typed(ss, Product) by { assert IsTypeStatement(ss[0]); }
    assert Typed(ss, Quantity) by { assert IsTypeStatement(ss[5]); }
    forall i | 0 <= i < |ss| ensures !Unregistered(ss[i]) && (ss[i].subj == Product || ss[i].subj == Quantity) {
    }
  }

  /** Only the first statement and the sixth carry an rdf:type. */
  lemma AppleTypeStatements()
    ensures forall i :: 0 <= i < |AppleStatements| ==> (IsTypeStatement(AppleStatements[i]) <==> i == 0 || i == 5)
  {
    forall local | local != "type" ensures Dfc(local) != RdfType {
      DfcIsNotRdfType(local);
    }
  }

  /** The type statements, in order, are about the product and then the quantity. */
  lemma AppleTypedSubjectList()
    ensures TypedSubjects(AppleStatements) == [Product, Quantity]
  {
    var ss := AppleStatements;
    AppleTypeStatements();
    NoTypedSubjectsPrefix(ss, 6, 12);
    assert ss[12..] == [];
    TypedSubjectsFrom(ss, 5);
    assert TypedSubjects(ss[5..]) == [Quantity];
    NoTypedSubjectsPrefix(ss, 1, 5);
    TypedSubjectsFrom(ss, 0);
    assert ss[0..] == ss;
  }

  /** So the subject index lists the product and then the quantity. */
  lemma AppleTypedSubjects()
    ensures Dedup([], TypedSubjects(AppleStatements)) == [Product, Quantity]
  {
    AppleTypedSubjectList();
    var xs := [Product, Quantity];
    assert xs[0] == Product && xs[1..] == [Quantity];
    assert Product !in [] && [] + [Product] == [Product];
    assert Dedup([], xs) == Dedup([Product], [Quantity]);
    assert Quantity !in [Product] && [Product] + [Quantity] == xs;
    assert [Quantity][1..] == [];
    assert Dedup([Product], [Quantity]) == Dedup(xs, []);
  }

  /** The product's name comes from its one name statement. */
  lemma AppleName()
    ensures LastObject(AppleStatements, Product, Dfc("name")) == Some(Apple)
  {
    DfcIsNotRdfType("name");
    DfcDistinct("description", "name");
    DfcDistinct("hasType", "name");
    DfcDistinct("hasQuantity", "name");
    DfcDistinct("alcoholPercentage", "name");
    DfcDistinct("lifetime", "name");
    DfcDistinct("usageOrStorageCondition", "name");
    DfcDistinct("totalTheoreticalStock", "name");
    LastObjectOfOnly(AppleStatements, Product, Dfc("name"), 1);
  }

  /** The product's type comes from its one hasType statement. */
  lemma AppleKind()
    ensures LastObject(AppleStatements, Product, Dfc("hasType")) == Some(Iri("dfc-pt:non-local-vegetable"))
  {
    DfcIsNotRdfType("hasType");
    DfcDistinct("name", "hasType");
    DfcDistinct("description", "hasType");
    DfcDistinct("hasQuantity", "hasType");
    DfcDistinct("alcoholPercentage", "hasType");
    DfcDistinct("lifetime", "hasType");
    DfcDistinct("usageOrStorageCondition", "hasType");
    DfcDistinct("totalTheoreticalStock", "hasType");
    LastObjectOfOnly(AppleStatements, Product, Dfc("hasType"), 3);
  }

  /** The product's quantity is the anonymous node. */
  lemma AppleQuantity()
    ensures LastObject(AppleStatements, Product, Dfc("hasQuantity")) == Some(Quantity)
  {
    DfcIsNotRdfType("hasQuantity");
    DfcDistinct("name", "hasQuantity");
    DfcDistinct("description", "hasQuantity");
    DfcDistinct("hasType", "hasQuantity");
    DfcDistinct("alcoholPercentage", "hasQuantity");
    DfcDistinct("lifetime", "hasQuantity");
    DfcDistinct("usageOrStorageCondition", "hasQuantity");
    DfcDistinct("totalTheoreticalStock", "hasQuantity");
    LastObjectOfOnly(AppleStatements, Product, Dfc("hasQuantity"), 4);
  }

  /** The quantity's unit is grams. */
  lemma AppleUnit()
    ensures LastObject(AppleStatements, Quantity, Dfc("hasUnit")) == Some(Gram)
  {
    DfcIsNotRdfType("hasUnit");
    DfcDistinct("value", "hasUnit");
    LastObjectOfOnly(AppleStatements, Quantity, Dfc("hasUnit"), 6);
  }

  /** The quantity's value is three. */
  lemma AppleValue()
    ensures LastObject(AppleStatements, Quantity, Dfc("value")) == Some(Three)
  {
    DfcIsNotRdfType("value");
    DfcDistinct("hasUnit", "value");
    LastObjectOfOnly(AppleStatements, Quantity, Dfc("value"), 7);
  }

  /** The type statements name the product and the quantity's registered classes. */
  lemma AppleLastTypes()
    ensures LastObject(AppleStatements, Product, RdfType) == Some(Iri(SemanticType(SuppliedProduct)))
    ensures LastObject(AppleStatements, Quantity, RdfType) == Some(Iri(SemanticType(QuantitativeValue)))
    ensures TypeKind(Iri(SemanticType(SuppliedProduct))) == Some(SuppliedProduct)
    ensures TypeKind(Iri(SemanticType(QuantitativeValue))) == Some(QuantitativeValue)
  {
    var ss := AppleStatements;
    AppleTypeStatements();
    LastObjectOfOnly(ss, Product, RdfType, 0);
    LastObjectOfOnly(ss, Quantity, RdfType, 5);
  }

  /** The import succeeds and returns the product's object and the quantity's, in that order. */
  lemma AppleImportRoots()
    ensures ImportSpec(DfcSchemas, AppleStatements).Ok?
    ensures var r := ImportSpec(DfcSchemas, AppleStatements).value;
      && r.outcome.Many? && |r.outcome.roots| == 2
      && r.outcome.roots[0] < |r.objects| && r.outcome.roots[1] < |r.objects|
      && r.objects[r.outcome.roots[0]].kind == SuppliedProduct
      && r.objects[r.outcome.roots[0]].id == Some(Product.uri)
      && r.objects[r.outcome.roots[1]].kind == QuantitativeValue
      && r.objects[r.outcome.roots[1]].id == None
  {
    var ss := AppleStatements;
    AppleStatementsWellTyped();
    ImportFailsIff(DfcSchemas, ss);
    AppleTypedSubjects();
    AppleLastTypes();
    ImportOutcome(DfcSchemas, ss);
  }

  /** The product's name, type and quantity and the quantity's unit and value are scalar properties. */
  lemma AppleProperties()
    ensures Property(DfcSchemas, SuppliedProduct, Dfc("name")) == Some(Single)
    ensures Property(DfcSchemas, SuppliedProduct, Dfc("hasType")) == Some(Single)
    ensures Property(DfcSchemas, SuppliedProduct, Dfc("hasQuantity")) == Some(Single)
    ensures Property(DfcSchemas, QuantitativeValue, Dfc("hasUnit")) == Some(Single)
    ensures Property(DfcSchemas, QuantitativeValue, Dfc("value")) == Some(Single)
  {
    assert Property(DfcSchemas, SuppliedProduct, Dfc("name")) == Some(Single) by {
      DfcDistinct("name", "description");
      DfcDistinct("name", "hasType");
      DfcDistinct("name", "hasQuantity");
      DfcDistinct("name", "alcoholPercentage");
      DfcDistinct("name", "lifetime");
      DfcDistinct("name", "usageOrStorageCondition");
      DfcDistinct("name", "totalTheoreticalStock");
      DfcDistinct("name", "hasClaim");
      DfcDistinct("name", "hasAllergenCharacteristic");
      DfcDistinct("name", "hasNutrientCharacteristic");
      DfcDistinct("name", "referencedBy");
    }
    assert Property(DfcSchemas, SuppliedProduct, Dfc("hasType")) == Some(Single) by {
      DfcDistinct("hasType", "hasQuantity");
      DfcDistinct("hasType", "alcoholPercentage");
      DfcDistinct("hasType", "lifetime");
      DfcDistinct("hasType", "usageOrStorageCondition");
      DfcDistinct("hasType", "totalTheoreticalStock");
      DfcDistinct("hasType", "hasClaim");
      DfcDistinct("hasType", "hasAllergenCharacteristic");
      DfcDistinct("hasType", "hasNutrientCharacteristic");
      DfcDistinct("hasType", "referencedBy");
    }
    assert Property(DfcSchemas, SuppliedProduct, Dfc("hasQuantity")) == Some(Single) by {
      DfcDistinct("hasQuantity", "alcoholPercentage");
      DfcDistinct("hasQuantity", "lifetime");
      DfcDistinct("hasQuantity", "usageOrStorageCondition");
      DfcDistinct("hasQuantity", "totalTheoreticalStock");
      DfcDistinct("hasQuantity", "hasClaim");
      DfcDistinct("hasQuantity", "hasAllergenCharacteristic");
      DfcDistinct("hasQuantity", "hasNutrientCharacteristic");
      DfcDistinct("hasQuantity", "referencedBy");
    }
    assert Property(DfcSchemas, QuantitativeValue, Dfc("hasUnit")) == Some(Single) by {
      DfcDistinct("hasUnit", "value");
    }
  }

  /** The product's name and quantity and the quantity's unit and value have writers. */
  lemma AppleSetters()
    ensures HasSetter(DfcSchemas, SuppliedProduct, Dfc("name"))
    ensures HasSetter(DfcSchemas, SuppliedProduct, Dfc("hasQuantity"))
    ensures HasSetter(DfcSchemas, QuantitativeValue, Dfc("hasUnit"))
    ensures HasSetter(DfcSchemas, QuantitativeValue, Dfc("value"))
  {
    DfcSetter(DfcSchemas, SuppliedProduct, "name");
    DfcSetter(DfcSchemas, SuppliedProduct, "hasQuantity");
    DfcSetter(DfcSchemas, QuantitativeValue, "hasUnit");
    DfcSetter(DfcSchemas, QuantitativeValue, "value");
  }

  /**
   * In the stand-in tables, the product's type property is `hasType` but its
   * writer is `productType`, so the setter check finds no writer for it.
   */
  lemma AppleTypeHasNoSetter()
    ensures !HasSetter(DfcSchemas, SuppliedProduct, Dfc("hasType"))
  {
    assert "hasType" !in DfcSchemas[SuppliedProduct].writers;
    DfcSetter(DfcSchemas, SuppliedProduct, "hasType");
  }

  /** The name, unit and value objects are not subjects of any type statement. */
  lemma AppleUntypedObjects()
    ensures !Typed(AppleStatements, Apple) && !Typed(AppleStatements, Gram) && !Typed(AppleStatements, Three)
  {
    AppleTypeStatements();
  }

  /** `ImportScalarOfPredicate` for a business-ontology predicate, whose writer is its local name. */
  lemma ImportScalarOfDfc(schemas: map<Kind, Schema>, ss: seq<Statement>, s: Term, local: string)
    requires UniqueWriters(schemas)
    requires ImportSpec(schemas, ss).Ok?
    requires var r := ImportSpec(schemas, ss).value;
      s in Built(ss).at && Built(ss).at[s] < |r.objects|
      && Property(schemas, r.objects[Built(ss).at[s]].kind, Dfc(local)) == Some(Single)
    ensures var o := ImportSpec(schemas, ss).value.objects[Built(ss).at[s]];
      && (local in o.scalars <==> HasSetter(schemas, o.kind, Dfc(local)) && LastObject(ss, s, Dfc(local)).Some?)
      && (local in o.scalars ==> o.scalars[local] == ResolveObject(Built(ss).at, LastObject(ss, s, Dfc(local)).value))
  {
    DfcFragment(local);
    ImportScalarOfPredicate(schemas, ss, s, Dfc(local));
  }

  /** An import whose typed subjects are the product and the quantity returns their two objects. */
  lemma TwoRoots(schemas: map<Kind, Schema>, ss: seq<Statement>)
    requires ImportSpec(schemas, ss).Ok?
    requires Dedup([], TypedSubjects(ss)) == [Product, Quantity]
    ensures var r := ImportSpec(schemas, ss).value;
      var at := Built(ss).at;
      && r.outcome.Many? && |r.outcome.roots| == 2
      && Product in at && r.outcome.roots[0] == at[Product] && Typed(ss, Product)
      && BuiltFor(ss, r.objects, at[Product], Product)
      && Quantity in at && r.outcome.roots[1] == at[Quantity] && Typed(ss, Quantity)
      && BuiltFor(ss, r.objects, at[Quantity], Quantity)
  {
    ImportOutcome(schemas, ss);
    assert Dedup([], TypedSubjects(ss))[0] == Product;
    assert Dedup([], TypedSubjects(ss))[1] == Quantity;
  }

  /**
   * The scalar behind writer `local` of the `i`-th imported object, for any
   * statement list whose typed subjects are the product and the quantity.
   */
  lemma RootScalar(ss: seq<Statement>, i: nat, k: Kind, local: string)
    requires ImportSpec(DfcSchemas, ss).Ok?
    requires Dedup([], TypedSubjects(ss)) == [Product, Quantity] && i < 2
    requires LastObject(ss, [Product, Quantity][i], RdfType) == Some(Iri(SemanticType(k)))
    requires Property(DfcSchemas, k, Dfc(local)) == Some(Single)
    ensures var r := ImportSpec(DfcSchemas, ss).value;
      var s := [Product, Quantity][i];
      && r.outcome.Many? && |r.outcome.roots| == 2 && r.outcome.roots[i] < |r.objects|
      && var o := r.objects[r.outcome.roots[i]];
      && o.kind == k
      && (local in o.scalars <==> HasSetter(DfcSchemas, k, Dfc(local)) && LastObject(ss, s, Dfc(local)).Some?)
      && (local in o.scalars ==> o.scalars[local] == ResolveObject(Built(ss).at, LastObject(ss, s, Dfc(local)).value))
  {
    DfcUniqueWriters();
    TwoRoots(DfcSchemas, ss);
    assert TypeKind(Iri(SemanticType(k))) == Some(k);
    ImportScalarOfDfc(DfcSchemas, ss, [Product, Quantity][i], local);
  }

  /** In such an import, the quantity node resolves to the second object and an untyped term to itself. */
  lemma RootReferences(schemas: map<Kind, Schema>, ss: seq<Statement>, t: Term)
    requires ImportSpec(schemas, ss).Ok?
    requires Dedup([], TypedSubjects(ss)) == [Product, Quantity]
    requires !Typed(ss, t)
    ensures var r := ImportSpec(schemas, ss).value;
      && r.outcome.Many? && |r.outcome.roots| == 2
      && ResolveObject(Built(ss).at, Quantity) == Ref(r.outcome.roots[1])
      && ResolveObject(Built(ss).at, t) == Raw(t)
  {
    TwoRoots(schemas, ss);
    TypedTermsResolveToBuiltObjects(schemas, ss, Quantity);
    TypedTermsResolveToBuiltObjects(schemas, ss, t);
  }

  /**
   * The imported product is named "Apple" and refers to the imported
   * quantity object, though the quantity's type statement comes later. Its
   * `hasType` statement is there but sets nothing: the class's writer is
   * `productType`, not `hasType`.
   */
  lemma AppleProductObject()
    ensures ImportSpec(DfcSchemas, AppleStatements).Ok?
    ensures LastObject(AppleStatements, Product, Dfc("hasType")).Some?
    ensures var r := ImportSpec(DfcSchemas, AppleStatements).value;
      && r.outcome.Many? && |r.outcome.roots| == 2 && r.outcome.roots[0] < |r.objects|
      && var product := r.objects[r.outcome.roots[0]];
      && product.kind == SuppliedProduct
      && "name" in product.scalars && "hasQuantity" in product.scalars
      && product.scalars["name"] == Raw(Apple)
      && product.scalars["hasQuantity"] == Ref(r.outcome.roots[1])
      && "hasType" !in product.scalars
  {
    AppleImportRoots();
    AppleTypedSubjects();
    AppleLastTypes();
    AppleProperties();
    AppleSetters();
    AppleTypeHasNoSetter();
    AppleName();
    AppleKind();
    AppleQuantity();
    AppleUntypedObjects();
    var ss := AppleStatements;
    RootScalar(ss, 0, SuppliedProduct, "name");
    RootScalar(ss, 0, SuppliedProduct, "hasType");
    RootScalar(ss, 0, SuppliedProduct, "hasQuantity");
    RootReferences(DfcSchemas, ss, Apple);
  }

  /** The imported quantity is anonymous and holds 3.0 grams. */
  lemma AppleQuantityObject()
    ensures ImportSpec(DfcSchemas, AppleStatements).Ok?
    ensures var r := ImportSpec(DfcSchemas, AppleStatements).value;
      && r.outcome.Many? && |r.outcome.roots| == 2 && r.outcome.roots[1] < |r.objects|
      && var quantity := r.objects[r.outcome.roots[1]];
      && quantity.kind == QuantitativeValue
      && quantity.id == None
      && "hasUnit" in quantity.scalars && "value" in quantity.scalars
      && quantity.scalars["hasUnit"] == Raw(Gram)
      && quantity.scalars["value"] == Raw(Three)
  {
    AppleImportRoots();
    AppleTypedSubjects();
    AppleLastTypes();
    AppleProperties();
    AppleSetters();
    AppleUnit();
    AppleValue();
    AppleUntypedObjects();
    var ss := AppleStatements;
    RootScalar(ss, 1, QuantitativeValue, "hasUnit");
    RootScalar(ss, 1, QuantitativeValue, "value");
    RootReferences(DfcSchemas, ss, Gram);
    RootReferences(DfcSchemas, ss, Three);
  }
}
