/** What one whole import returns, in terms of the statement list alone. */
module ImportProperties {
  import opened Wrappers
  import opened Rdf
  import opened Ontology
  import opened Semantic
  import opened Queries
  import opened Connector
  import opened BuildProperties
  import opened ApplyProperties

  /** The subject index the build pass of an import produces. */
  function Built(ss: seq<Statement>): Index
    requires BuildFrom(EmptyIndex, ss).Ok?
  {
    BuildFrom(EmptyIndex, ss).value
  }

  /** `objects[n]` was built for `s`: of the kind its last type statement names, with `s`'s value as id. */
  ghost predicate BuiltFor(ss: seq<Statement>, objects: seq<SemanticObject>, n: nat, s: Term)
  {
    && n < |objects|
    && LastObject(ss, s, RdfType).Some?
    && TypeKind(LastObject(ss, s, RdfType).value) == Some(objects[n].kind)
    && objects[n].id == TermValue(s)
  }

  /**
   * An import fails exactly when a type is unregistered or a statement is
   * about a subject no statement types; an unregistered type wins.
   */
  lemma ImportFailsIff(schemas: map<Kind, Schema>, ss: seq<Statement>)
    ensures ImportSpec(schemas, ss).Err? <==>
      (exists i :: 0 <= i < |ss| && Unregistered(ss[i])) || (exists i :: 0 <= i < |ss| && !Typed(ss, ss[i].subj))
    ensures (exists i :: 0 <= i < |ss| && Unregistered(ss[i])) ==>
      (ImportSpec(schemas, ss).Err? && ImportSpec(schemas, ss).error.UnknownSemanticType?)
    ensures !(exists i :: 0 <= i < |ss| && Unregistered(ss[i])) && ImportSpec(schemas, ss).Err? ==>
      ImportSpec(schemas, ss).error.UntypedSubject?
  {
    BuildFailsOnFirstUnregistered(EmptyIndex, ss);
    if BuildFrom(EmptyIndex, ss).Ok? {
      BuildIndexesTypedSubjects(ss);
      ApplyFailsOnFirstUntyped(schemas, Built(ss), ss);
    }
  }

  /**
   * Every term some statement types resolves to the object built for it,
   * wherever its type statement stands; every other term stays itself.
   */
  lemma TypedTermsResolveToBuiltObjects(schemas: map<Kind, Schema>, ss: seq<Statement>, o: Term)
    requires ImportSpec(schemas, ss).Ok?
    ensures Typed(ss, o) ==>
      (o in Built(ss).at && ResolveObject(Built(ss).at, o) == Ref(Built(ss).at[o])
       && BuiltFor(ss, ImportSpec(schemas, ss).value.objects, Built(ss).at[o], o))
    ensures !Typed(ss, o) ==> ResolveObject(Built(ss).at, o) == Raw(o)
  {
    BuildIndexesTypedSubjects(ss);
    if Typed(ss, o) {
      var built := Built(ss);
      var done := ApplyFrom(schemas, built, ss).value;
      assert ImportSpec(schemas, ss).value.objects == done.objects;
      LastObjectIsLast(ss, o, RdfType);
      var i :| 0 <= i < |ss| && IsTypeStatement(ss[i]) && ss[i].subj == o;
      assert About(ss[i], o, RdfType);
      BuildLastTypeWins(EmptyIndex, ss, o);
      var n := built.at[o];
      assert done.objects[n].kind == built.objects[n].kind && done.objects[n].id == built.objects[n].id;
    }
  }

  /**
   * `import` returns nothing, the one object, or the objects of all typed
   * subjects in the order each was first typed; one distinct object each.
   */
  lemma ImportOutcome(schemas: map<Kind, Schema>, ss: seq<Statement>)
    requires ImportSpec(schemas, ss).Ok?
    ensures var subjects := Dedup([], TypedSubjects(ss));
      var r := ImportSpec(schemas, ss).value;
      && NoRepeats(subjects)
      && (forall s :: s in subjects <==> Typed(ss, s))
      && (r.outcome == Nothing <==> |subjects| == 0)
      && (r.outcome.One? <==> |subjects| == 1)
      && (r.outcome.Many? <==> |subjects| > 1)
      && (r.outcome.One? ==>
            (subjects[0] in Built(ss).at && r.outcome.root == Built(ss).at[subjects[0]]
             && BuiltFor(ss, r.objects, r.outcome.root, subjects[0])))
      && (r.outcome.Many? ==>
            (|r.outcome.roots| == |subjects|
             && (forall i :: 0 <= i < |subjects| ==>
                   subjects[i] in Built(ss).at && r.outcome.roots[i] == Built(ss).at[subjects[i]]
                   && BuiltFor(ss, r.objects, r.outcome.roots[i], subjects[i]))
             && (forall i, j :: 0 <= i < j < |subjects| ==> r.outcome.roots[i] != r.outcome.roots[j])))
  {
    var subjects := Dedup([], TypedSubjects(ss));
    BuildIndexesTypedSubjects(ss);
    DedupKeepsFirstOccurrences([], TypedSubjects(ss));
    TypedSubjectsAreTyped(ss);
    var built := Built(ss);
    forall s | s in subjects
      ensures BuiltFor(ss, ImportSpec(schemas, ss).value.objects, built.at[s], s)
    {
      TypedTermsResolveToBuiltObjects(schemas, ss, s);
    }
  }

  /** After an import, a multi-valued property holds exactly the values of the statements on it, in order. */
  lemma ImportCollection(schemas: map<Kind, Schema>, ss: seq<Statement>, s: Term, pred: string)
    requires ImportSpec(schemas, ss).Ok?
    requires var r := ImportSpec(schemas, ss).value;
      s in Built(ss).at && Built(ss).at[s] < |r.objects|
      && Property(schemas, r.objects[Built(ss).at[s]].kind, pred) == Some(Multiple)
    ensures Collection(ImportSpec(schemas, ss).value.objects[Built(ss).at[s]], pred) == Collected(Built(ss).at, ss, s, pred)
  {
    BuildIndexesTypedSubjects(ss);
    TypedTermsResolveToBuiltObjects(schemas, ss, s);
    BuildLastTypeWins(EmptyIndex, ss, s);
    MultiValuedAppendsInOrder(schemas, Built(ss), ss, s, pred);
  }

  /**
   * After an import, the scalar behind writer `w` is set exactly when some
   * statement calls `w=` on the subject, and then to the last one's value.
   */
  lemma ImportScalar(schemas: map<Kind, Schema>, ss: seq<Statement>, s: Term, w: string)
    requires ImportSpec(schemas, ss).Ok?
    requires s in Built(ss).at && Built(ss).at[s] < |ImportSpec(schemas, ss).value.objects|
    ensures var o := ImportSpec(schemas, ss).value.objects[Built(ss).at[s]];
      var last := LastWrite(schemas, o.kind, ss, s, w);
      && (w in o.scalars <==> last.Some?)
      && (w in o.scalars ==> o.scalars[w] == ResolveObject(Built(ss).at, last.value))
  {
    BuildIndexesTypedSubjects(ss);
    TypedTermsResolveToBuiltObjects(schemas, ss, s);
    BuildLastTypeWins(EmptyIndex, ss, s);
    ScalarLastWriteWins(schemas, Built(ss), ss, s, w);
  }

  /**
   * With tables in which no two predicates of a class share a fragment, a
   * single-valued property is set exactly when its class has the setter and
   * some statement is on it, and then to the last one's value.
   */
  lemma ImportScalarOfPredicate(schemas: map<Kind, Schema>, ss: seq<Statement>, s: Term, pred: string)
    requires UniqueWriters(schemas) && Fragment(pred).Some?
    requires ImportSpec(schemas, ss).Ok?
    requires var r := ImportSpec(schemas, ss).value;
      s in Built(ss).at && Built(ss).at[s] < |r.objects|
      && Property(schemas, r.objects[Built(ss).at[s]].kind, pred) == Some(Single)
    ensures var o := ImportSpec(schemas, ss).value.objects[Built(ss).at[s]];
      var w := Fragment(pred).value;
      && (w in o.scalars <==> HasSetter(schemas, o.kind, pred) && LastObject(ss, s, pred).Some?)
      && (w in o.scalars ==> o.scalars[w] == ResolveObject(Built(ss).at, LastObject(ss, s, pred).value))
  {
    var o := ImportSpec(schemas, ss).value.objects[Built(ss).at[s]];
    ImportScalar(schemas, ss, s, Fragment(pred).value);
    LastWriteOfPredicate(schemas, o.kind, ss, s, pred);
  }
}
