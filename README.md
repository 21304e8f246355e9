# DFC semantic-graph importer, in Dafny

This project models `DataFoodConsortium::Connector::Importer`, the importer of
the Data Food Consortium (DFC) connector. It turns a list of RDF statements
(subject, predicate, object) into typed objects in two passes:

- **Build pass** (`build_subjects`). Every `rdf:type` statement makes one empty
  object of the registered connector class. The object is stored in the
  `@subjects` hash under its subject. A named subject's value becomes the
  object's id; a blank node gets no id. An unregistered type aborts the import.
- **Apply pass** (`apply_statements`). Every statement is applied in order:
  - its object is resolved to a built object when the object term is a key of
    the hash, and is otherwise kept as it came;
  - a predicate the subject's class does not declare is ignored;
  - a multi-valued property gets the value appended;
  - a scalar property is overwritten when the class has a writer named after
    the predicate's fragment; the model stores the value under that writer
    name, so two predicates with the same fragment reach the same scalar.

  A statement about a subject that no type statement names aborts the import.
- **Result** (`import`). The hash is reset on every call. The result is nil
  when there are no objects, the object itself when there is one, and the list
  of objects in insertion order otherwise.

Modules, one per file:

- `Rdf`: terms, statements, `rdf:type` and IRI fragments.
- `Ontology`: the type registry, the business-ontology IRIs and the per-class
  property tables and writers.
- `Semantic`: the objects being built, and the append and assign operations
  on them.
- `Queries`: reference definitions over a statement list: which subjects are
  typed, in what first-typed order, and the last object stated for a subject
  and predicate.
- `Connector`: the importer.
  - The functions `BuildFrom`, `ApplyFrom` and `ImportSpec` are the
    specification.
  - The class `Importer` holds the hash as fields and runs the two passes as
    loops, proved equal to those functions.
- `BuildProperties`, `ApplyProperties`, `ImportProperties`: what the passes
  and the whole import do, stated with the reference definitions only.
- `AppleExample`: the supplied-product document of the DFC provider's request
  spec, imported end to end.

Objects refer to each other through their place in an object table
(`Ref(n)`), so forward and circular references are ordinary values. The hash
is `keys` (insertion order) plus `at` (subject to table index). A subject
typed twice keeps its first position in `keys` but points to the newer object,
as a Ruby `Hash` does on reassignment.

Two behaviours of the code that a reader might not expect, and that the model
keeps:

- A statement about an untyped subject raises rather than being dropped:
  `subject_of` returns nil and `hasSemanticProperty?` is then called on nil.
  The model returns `Err(UntypedSubject(..))`.
- The supplied-product document has two typed subjects, the product and its
  anonymous quantity. So `import` returns a list of two objects
  (`AppleExample.AppleImportRoots`), not the product alone.

## Model

| member | source | states |
|---|---|---|
| Rdf.TermValue | lib/data_food_consortium/connector/importer.rb:56-57 | A term has a value unless it is a blank node; an IRI's value is the IRI itself and a literal's is its lexical form. |
| Rdf.Fragment | lib/data_food_consortium/connector/importer.rb:79 | The fragment exists exactly when the IRI has a `#`, and it is shorter than the IRI. |
| Rdf.FragmentOfLocalName | lib/data_food_consortium/connector/importer.rb:79 | For a namespace without `#`, the fragment of `namespace#local` is `local`. |
| Ontology.DfcFragment | lib/data_food_consortium/connector/importer.rb:79 | The fragment of a business-ontology predicate is its local name, so that name is the setter name the importer asks for. |
| Ontology.SemanticTypeInjective | lib/data_food_consortium/connector/importer.rb:6-24 | The six registered classes have six different semantic types, so building `type_map` loses no class. |
| Ontology.TypeMap | lib/data_food_consortium/connector/importer.rb:15-24 | A type IRI maps to a class exactly when it is that class's semantic type. |
| Ontology.Property | lib/data_food_consortium/connector/importer.rb:74-76 | A property is found exactly when the class has a table and the table declares the predicate, and then with the cardinality the table declares. |
| Ontology.HasSetter | lib/data_food_consortium/connector/importer.rb:79-83 | A setter exists exactly when the predicate has a fragment and the class has a writer of that name; no fragment means no setter. |
| Ontology.DfcSetter | lib/data_food_consortium/connector/importer.rb:79-83 | A business-ontology predicate has a setter exactly when its local name is one of the class's writers. |
| Ontology.DfcPredicates | lib/data_food_consortium/connector/importer.rb:74-76 | Every predicate a registered class declares is a business-ontology IRI. |
| Ontology.DfcUniqueWriters | lib/data_food_consortium/connector/importer.rb:79-84 | No registered class declares two predicates with the same fragment, so each writer is reached from at most one declared predicate. |
| Semantic.NewObject | lib/data_food_consortium/connector/importer.rb:60 | A new object has the given class and id, no scalar set and every collection empty. |
| Semantic.Append | lib/data_food_consortium/connector/importer.rb:81-82 | Appending adds the value at the end of that one collection; other collections, the scalars, the class and the id are unchanged. |
| Semantic.Assign | lib/data_food_consortium/connector/importer.rb:83-84 | A call of writer `w=` makes the scalar under `w` hold the value; every other scalar, the collections, the class and the id are unchanged. |
| Queries.TypedSubjectsAreTyped | lib/data_food_consortium/connector/importer.rb:49 | The subjects the type-statement query yields are exactly the subjects of some type statement. |
| Queries.DedupKeepsFirstOccurrences | lib/data_food_consortium/connector/importer.rb:50 | Keeping first occurrences gives no repeats, extends what was seen, and holds exactly the seen and the new elements. |
| Queries.LastObjectIsLast | lib/data_food_consortium/connector/importer.rb:64-65 | The last object is absent exactly when no statement is on that subject and predicate; otherwise it comes from such a statement with none after it. |
| Connector.TypeKind | lib/data_food_consortium/connector/importer.rb:56-58 | A type object names class `k` exactly when its value is `k`'s semantic type; a blank node names no class. |
| Connector.BuildSubject | lib/data_food_consortium/connector/importer.rb:54-61 | Succeeds exactly when the type's value is registered, else fails with `UnknownSemanticType`. The object has that class and no properties. Its id is absent exactly for a blank subject, and is the IRI for a named one. |
| Connector.BuildStep | lib/data_food_consortium/connector/importer.rb:49-50 | One step keeps the index well formed and keeps every object built so far. |
| Connector.BuildFrom | lib/data_food_consortium/connector/importer.rb:48-52 | The build pass keeps the index well formed, only adds objects, and can fail only with `UnknownSemanticType`. |
| Connector.SubjectOf | lib/data_food_consortium/connector/importer.rb:88-90 | Finds an object exactly when the statement's subject is a key, and then the one stored under it. |
| Connector.ResolveObject | lib/data_food_consortium/connector/importer.rb:92-94 | An object term that is a key resolves to a reference to its object; any other term stays the term it was. |
| Connector.ApplyStep | lib/data_food_consortium/connector/importer.rb:69-86 | Fails with `UntypedSubject` exactly when the subject is not a key. Otherwise the hash is unchanged and every object keeps its class and id. A scalar write is stored under the writer name, the predicate's fragment. |
| Connector.ApplyFrom | lib/data_food_consortium/connector/importer.rb:63-67 | The apply pass never changes the hash or any object's class or id, and can fail only with `UntypedSubject`. |
| Connector.SubjectValues | lib/data_food_consortium/connector/importer.rb:34 | The values are the objects of the keys, one per key, in key order. |
| Connector.OutcomeOf | lib/data_food_consortium/connector/importer.rb:33-37 | nil exactly when the hash is empty; the object of the only key exactly when there is one key; otherwise the list of all values in key order. |
| Connector.ImportSpec | lib/data_food_consortium/connector/importer.rb:26-38 | Every object the result names is in the returned table. Its error cases and its result are stated by `ImportFailsIff` and `ImportOutcome`. |
| Connector.Importer.constructor | lib/data_food_consortium/connector/importer.rb:5-13 | A new importer has an empty hash and the registered classes' tables. |
| Connector.Importer.Import | lib/data_food_consortium/connector/importer.rb:26-38 | Resets the hash, then returns exactly `ImportSpec` of the statements, whatever an earlier call left. On success the returned table is the importer's own. |
| Connector.Importer.BuildSubjects | lib/data_food_consortium/connector/importer.rb:48-52 | The loop's new state, or its error, is `BuildFrom` of the old state; the index stays well formed. |
| Connector.Importer.ApplyStatements | lib/data_food_consortium/connector/importer.rb:63-67 | The loop's new state, or its error, is `ApplyFrom` of the old state; the index stays well formed. |
| Connector.Importer.ApplyStatement | lib/data_food_consortium/connector/importer.rb:69-94 | The in-place update, or its error, is `ApplyStep` of the old state. |
| BuildProperties.BuildFailsOnFirstUnregistered | lib/data_food_consortium/connector/importer.rb:54-60 | The build pass fails exactly when some type statement names an unregistered type, and with the first such statement's subject and type. |
| BuildProperties.BuildKeysInFirstTypedOrder | lib/data_food_consortium/connector/importer.rb:48-52 | The keys are the old keys followed by each newly typed subject once, in the order each was first typed. |
| BuildProperties.BuildIndexesTypedSubjects | lib/data_food_consortium/connector/importer.rb:48-52 | From an empty hash, the keys are the typed subjects in first-typed order, and a term is a key exactly when some type statement names it. |
| BuildProperties.BuildLastTypeWins | lib/data_food_consortium/connector/importer.rb:49-50 | A typed subject's object is the empty object its last type statement builds. A subject with no type statement keeps its key and object. |
| ApplyProperties.ApplyFailsOnFirstUntyped | lib/data_food_consortium/connector/importer.rb:70-74 | The apply pass fails exactly when some statement's subject is not a key, and with the first such statement's subject. |
| ApplyProperties.MultiValuedAppendsInOrder | lib/data_food_consortium/connector/importer.rb:81-82 | A multi-valued property ends as its old elements followed by one resolved value per statement on it, in statement order. |
| ApplyProperties.ScalarLastWriteWins | lib/data_food_consortium/connector/importer.rb:79-85 | For any tables and any writer `w`: when some statement calls `w=` on the subject, the scalar holds the resolved value of the last such statement, whichever predicate it came through. Otherwise it is exactly as before. |
| ApplyProperties.LastWriteOfPredicate | lib/data_food_consortium/connector/importer.rb:79-85 | When no two predicates of a class share a fragment, the last call of a declared predicate's writer is the last statement on that predicate if it is scalar with a setter, and there is none otherwise. |
| ApplyProperties.TypeStatementsIgnored | lib/data_food_consortium/connector/importer.rb:49 | A class that declares only business-ontology predicates ignores every `rdf:type` statement in the apply pass. |
| ApplyProperties.IgnoredStatementChangesNothing | lib/data_food_consortium/connector/importer.rb:74-85 | A statement whose predicate is undeclared, or scalar without a setter, can be dropped without changing the result. |
| ApplyProperties.UntouchedObjectUnchanged | lib/data_food_consortium/connector/importer.rb:69-86 | An object no statement is about leaves the apply pass unchanged. |
| ImportProperties.ImportFailsIff | lib/data_food_consortium/connector/importer.rb:26-38 | An import fails exactly when a type is unregistered or a statement's subject is never typed. An unregistered type gives `UnknownSemanticType`; otherwise the error is `UntypedSubject`. |
| ImportProperties.TypedTermsResolveToBuiltObjects | lib/data_food_consortium/connector/importer.rb:92-94 | Any typed term, forward reference or not, resolves to the object built for it, with the class of its last type and its value as id. Any other term stays itself. |
| ImportProperties.ImportOutcome | lib/data_food_consortium/connector/importer.rb:33-37 | The result is nil for no typed subject, the object for one, and the objects in first-typed order for more. Each is built for its subject and all are distinct. |
| ImportProperties.ImportCollection | lib/data_food_consortium/connector/importer.rb:81-82 | After an import, a multi-valued property holds one resolved value per statement on it, in statement order. |
| ImportProperties.ImportScalar | lib/data_food_consortium/connector/importer.rb:79-85 | After an import, the scalar under writer `w` is set exactly when some statement calls `w=` on the subject, and then to the last one's resolved value. |
| ImportProperties.ImportScalarOfPredicate | lib/data_food_consortium/connector/importer.rb:79-85 | With tables in which no two predicates of a class share a fragment, a scalar property whose predicate has a fragment is set, under that fragment, exactly when the class has its setter and some statement is on it, and then to the last one's resolved value. |
| AppleExample.AppleStatementsWellTyped | engines/dfc_provider/spec/requests/supplied_products_spec.rb:27-43 | Both types in the document are registered, and every statement is about a typed subject. |
| AppleExample.AppleTypedSubjects | engines/dfc_provider/spec/requests/supplied_products_spec.rb:29-35 | The subject index lists the product and then its anonymous quantity. |
| AppleExample.AppleImportRoots | engines/dfc_provider/spec/requests/supplied_products_spec.rb:27-43 | The import succeeds and, in the listed statement order, returns two objects: first a SuppliedProduct with the document's IRI as id, then an anonymous QuantitativeValue. |
| AppleExample.AppleTypeHasNoSetter | engines/dfc_provider/spec/requests/supplied_products_spec.rb:33 | In the stand-in tables, the product class has no writer for `hasType`, so that statement is dropped. |
| AppleExample.AppleProductObject | engines/dfc_provider/spec/requests/supplied_products_spec.rb:59-60 | The product's `name` is "Apple" and its `hasQuantity` is the quantity object, although that object is typed later. The document has a `hasType` statement, but no `hasType` scalar is set. |
| AppleExample.AppleQuantityObject | engines/dfc_provider/spec/requests/supplied_products_spec.rb:34-38 | The quantity has no id, `hasUnit` Gram and `value` 3.0. |

## Left out

- `parse_rdf`: the JSON-LD expansion and the `RDF::Graph` it fills are a foreign library. The statement list is the input. Two consequences:
  - a graph is a set, so duplicate statements collapse there but not here;
  - its iteration order is not modelled — the list order stands for it.
- The example document's values are written as they appear in the document (`dfc-m:Gram`, `dfc-pt:non-local-vegetable`). The JSON-LD context that would expand them is not part of this model.
- `type_map`'s reflective probing of constructor arity, and the bodies of the six connector classes, are not part of this model. They are replaced by:
  - a static registry from semantic type to class;
  - one property table per class, listing each declared predicate as scalar or multi-valued;
  - the writer names each class has.
- The property tables and writer lists in `Ontology.DfcSchemas` stand in for class bodies that are not part of this model. Every lemma about the passes is stated for any tables; the ones that need each writer to be reached from one predicate say so (`UniqueWriters`).
- `clazz.new(*[id].compact)` passes one argument for a named subject and none for a blank node, and the initializers' arities differ (importer.rb:17-20). A class whose initializer does not accept that number of arguments raises `ArgumentError` in the source; the model builds the object regardless.
- `__send__(:findSemanticProperty, ..)` and `public_send` dispatch are modelled as table lookups and a map update.
- `object.object`, applied to every object term that is not a key (IRIs and untyped blank nodes as well as literals), is not modelled. Such a term stays the RDF term it was (`Raw`).
- `Rdf.Literal` has a lexical form and a datatype but no language tag, so a language-tagged literal loses its tag.
- A blank node's `value` is modelled as absent, following the comment at importer.rb:55 that anonymous subjects have no id. A blank node used as a type object is therefore an unknown type; it raises in the source as well.
- Object identity and aliasing are modelled by table indices. An object replaced by a later type statement stays in the table, unreferenced, as the garbage Ruby would collect.
- After a raise, the source leaves `@subjects` partly filled. The model's `Import` returns the error and makes no promise about the fields.
- Connector.Importer.Import: on success it states the returned table and result. It does not state the fields afterwards, beyond the returned table being `objects`.
- The request spec's HTTP, authentication and persistence, and the taxon, mailer and job specs, are framework code outside the importer.
