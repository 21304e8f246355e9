/**
 * The DFC semantic-graph importer: a statement list becomes typed objects in
 * two passes. The build pass makes one empty object per typed subject; the
 * apply pass then sets or appends every statement's value, resolving object
 * terms through the finished subject index.
 */
module Connector {
  import opened Wrappers
  import opened Rdf
  import opened Ontology
  import opened Semantic
  import opened Queries

  /** The exceptions an import raises; either aborts the whole import. */
  datatype ImportError =
    | UnknownSemanticType(subject: Term, typeTerm: Term)  // `type_map[type]` is nil, so `nil.new` raises
    | UntypedSubject(subject: Term)                         // `subject_of` is nil, so `hasSemanticProperty?` raises

  /**
   * The `@subjects` hash together with the objects it refers to: `keys` in
   * insertion order, `at` from subject to its object's place in `objects`.
   * An object replaced by a later type statement stays in `objects`, unreferenced.
   */
  datatype Index = Index(keys: seq<Term>, at: map<Term, nat>, objects: seq<SemanticObject>)

  const EmptyIndex: Index := Index([], map[], [])

  /** One key per subject, in one order, each with its own object. */
  ghost predicate Valid(ix: Index)
  {
    && NoRepeats(ix.keys)
    && (forall s :: s in ix.at <==> s in ix.keys)
    && (forall s :: s in ix.at ==> ix.at[s] < |ix.objects|)
    && (forall s, t :: s in ix.at && t in ix.at && s != t ==> ix.at[s] != ix.at[t])
  }

  /** `type_map[type_statement.object.value]`: the kind registered for the value of a type statement's object. */
  function TypeKind(t: Term): (r: Option<Kind>)
    ensures forall k :: r == Some(k) <==> TermValue(t) == Some(SemanticType(k))
    ensures t.Blank? ==> r.None?
  {
    match TermValue(t)
    case None => None
    case Some(uri) => TypeMap(uri)
  }

  /** `build_subject`: an empty object of the registered kind, identified by the subject's value. */
  function BuildSubject(st: Statement): (r: Result<SemanticObject, ImportError>)
    ensures r.Ok? <==> TypeKind(st.obj).Some?
    ensures r.Err? ==> r.error == UnknownSemanticType(st.subj, st.obj)
    ensures r.Ok? ==> r.value.kind == TypeKind(st.obj).value
    ensures r.Ok? ==> (r.value.id.None? <==> st.subj.Blank?)
    ensures r.Ok? && st.subj.Iri? ==> r.value.id == Some(st.subj.uri)
    ensures r.Ok? ==> forall pred :: pred !in r.value.scalars && Collection(r.value, pred) == []
  {
    match TypeKind(st.obj)
    case None => Err(UnknownSemanticType(st.subj, st.obj))
    case Some(k) => Ok(NewObject(k, TermValue(st.subj)))
  }

  /** One turn of `build_subjects`: a type statement (re)places its subject's object. */
  function BuildStep(ix: Index, st: Statement): (r: Result<Index, ImportError>)
    requires Valid(ix)
    ensures r.Ok? ==> Valid(r.value) && ix.objects <= r.value.objects
  {
    if !IsTypeStatement(st) then Ok(ix)
    else
      match BuildSubject(st)
      case Err(e) => Err(e)
      case Ok(o) =>
        var keys := if st.subj in ix.at then ix.keys else ix.keys + [st.subj];
        Ok(Index(keys, ix.at[st.subj := |ix.objects|], ix.objects + [o]))
  }

  /** `build_subjects` over the statements in order; the first unregistered type aborts. */
  function BuildFrom(ix: Index, ss: seq<Statement>): (r: Result<Index, ImportError>)
    requires Valid(ix)
    ensures r.Ok? ==> Valid(r.value) && ix.objects <= r.value.objects
    ensures r.Err? ==> r.error.UnknownSemanticType?
    decreases |ss|
  {
    if ss == [] then Ok(ix)
    else
      match BuildStep(ix, ss[0])
      case Err(e) => Err(e)
      case Ok(ix') => BuildFrom(ix', ss[1..])
  }

  /** `subject_of`: the object a statement is about, if its subject was typed. */
  function SubjectOf(at: map<Term, nat>, st: Statement): (r: Option<nat>)
    ensures r.Some? <==> st.subj in at
    ensures r.Some? ==> r.value == at[st.subj]
  {
    if st.subj in at then Some(at[st.subj]) else None
  }

  /** `resolve_object`: a built subject stands for its object, any other term for itself. */
  function ResolveObject(at: map<Term, nat>, o: Term): (v: Value)
    ensures v.Ref? <==> o in at
    ensures v.Ref? ==> v.target == at[o]
    ensures v.Raw? ==> v.term == o
  {
    if o in at then Ref(at[o]) else Raw(o)
  }

  /** Objects keep their kind and identity. */
  ghost predicate SameIdentities(before: seq<SemanticObject>, after: seq<SemanticObject>)
  {
    |after| == |before| &&
    forall n :: 0 <= n < |before| ==> after[n].kind == before[n].kind && after[n].id == before[n].id
  }

  /** `apply_statement`: append to a collection, call the writer named by the predicate's fragment, or do nothing. */
  function ApplyStep(schemas: map<Kind, Schema>, ix: Index, st: Statement): (r: Result<Index, ImportError>)
    requires Valid(ix)
    ensures r.Ok? <==> st.subj in ix.at
    ensures r.Err? ==> r.error == UntypedSubject(st.subj)
    ensures r.Ok? ==> r.value.keys == ix.keys && r.value.at == ix.at
    ensures r.Ok? ==> SameIdentities(ix.objects, r.value.objects)
  {
    match SubjectOf(ix.at, st)
    case None => Err(UntypedSubject(st.subj))
    case Some(n) =>
      var value := ResolveObject(ix.at, st.obj);
      var subject := ix.objects[n];
      match Property(schemas, subject.kind, st.pred)
      case None => Ok(ix)
      case Some(Multiple) => Ok(ix.(objects := ix.objects[n := Append(subject, st.pred, value)]))
      case Some(Single) =>
        if HasSetter(schemas, subject.kind, st.pred) then
          Ok(ix.(objects := ix.objects[n := Assign(subject, Fragment(st.pred).value, value)]))
        else Ok(ix)
  }

  /** `apply_statements`: every statement in order against one fixed subject index. */
  function ApplyFrom(schemas: map<Kind, Schema>, ix: Index, ss: seq<Statement>): (r: Result<Index, ImportError>)
    requires Valid(ix)
    ensures r.Ok? ==> r.value.keys == ix.keys && r.value.at == ix.at
    ensures r.Ok? ==> SameIdentities(ix.objects, r.value.objects)
    ensures r.Err? ==> r.error.UntypedSubject?
    decreases |ss|
  {
    if ss == [] then Ok(ix)
    else
      match ApplyStep(schemas, ix, ss[0])
      case Err(e) => Err(e)
      case Ok(ix') => ApplyFrom(schemas, ix', ss[1..])
  }

  /** What `import` returns: nil, the one object, or the objects in insertion order. */
  datatype Outcome = Nothing | One(root: nat) | Many(roots: seq<nat>)

  /** The outcome together with the object table its references point into. */
  datatype Imported = Imported(outcome: Outcome, objects: seq<SemanticObject>)

  /** `@subjects.values`, in the order the subjects were first typed. */
  function SubjectValues(ix: Index): (r: seq<nat>)
    requires Valid(ix)
    ensures |r| == |ix.keys|
    ensures forall i :: 0 <= i < |r| ==> r[i] == ix.at[ix.keys[i]]
  {
    seq(|ix.keys|, i requires 0 <= i < |ix.keys| => ix.at[ix.keys[i]])
  }

  /** The `if @subjects.size > 1` choice between the list, its first element and nil. */
  function OutcomeOf(ix: Index): (r: Outcome)
    requires Valid(ix)
    ensures r.Nothing? <==> |ix.keys| == 0
    ensures r.One? <==> |ix.keys| == 1
    ensures r.One? ==> r.root == ix.at[ix.keys[0]]
    ensures r.Many? ==> r.roots == SubjectValues(ix)
  {
    var values := SubjectValues(ix);
    if |values| > 1 then Many(values)
    else if |values| == 1 then One(values[0])
    else Nothing
  }

  /** `import` on a statement list: a fresh index, the build pass, then the apply pass. */
  function ImportSpec(schemas: map<Kind, Schema>, ss: seq<Statement>): (r: Result<Imported, ImportError>)
    ensures r.Ok? && r.value.outcome.One? ==> r.value.outcome.root < |r.value.objects|
    ensures r.Ok? && r.value.outcome.Many? ==>
      forall i :: 0 <= i < |r.value.outcome.roots| ==> r.value.outcome.roots[i] < |r.value.objects|
  {
    match BuildFrom(EmptyIndex, ss)
    case Err(e) => Err(e)
    case Ok(built) =>
      match ApplyFrom(schemas, built, ss)
      case Err(e) => Err(e)
      case Ok(done) => Ok(Imported(OutcomeOf(done), done.objects))
  }

  /** The importer; its fields are the `@subjects` hash and the objects built into it. */
  class Importer {
    var keys: seq<Term>
    var subjects: map<Term, nat>
    var objects: seq<SemanticObject>
    const schemas: map<Kind, Schema>

    function State(): Index
      reads this
    {
      Index(keys, subjects, objects)
    }

    constructor ()
      ensures State() == EmptyIndex && schemas == DfcSchemas
    {
      keys, subjects, objects := [], map[], [];
      schemas := DfcSchemas;
    }

    /** Resets the index, builds, applies and returns; nothing of an earlier call survives. */
    method Import(ss: seq<Statement>) returns (r: Result<Imported, ImportError>)
      modifies this
      ensures r == ImportSpec(schemas, ss)
      ensures r.Ok? ==> r.value.objects == objects
    {
      keys, subjects, objects := [], map[], [];
      var err := BuildSubjects(ss);
      if err.Some? {
        return Err(err.value);
      }
      err := ApplyStatements(ss);
      if err.Some? {
        return Err(err.value);
      }
      r := Ok(Imported(OutcomeOf(State()), objects));
    }

    method BuildSubjects(ss: seq<Statement>) returns (err: Option<ImportError>)
      requires Valid(State())
      modifies this
      ensures BuildFrom(old(State()), ss) == if err.None? then Ok(State()) else Err(err.value)
      ensures err.None? ==> Valid(State())
    {
      var i := 0;
      while i < |ss|
        invariant 0 <= i <= |ss|
        invariant Valid(State())
        invariant BuildFrom(old(State()), ss) == BuildFrom(State(), ss[i..])
      {
        var st := ss[i];
        assert ss[i..][1..] == ss[i + 1..];
        if IsTypeStatement(st) {
          var built := BuildSubject(st);
          if built.Err? {
            return Some(built.error);
          }
          if st.subj !in subjects {
            keys := keys + [st.subj];
          }
          subjects := subjects[st.subj := |objects|];
          objects := objects + [built.value];
        }
        i := i + 1;
      }
      err := None;
    }

    method ApplyStatements(ss: seq<Statement>) returns (err: Option<ImportError>)
      requires Valid(State())
      modifies this
      ensures ApplyFrom(schemas, old(State()), ss) == if err.None? then Ok(State()) else Err(err.value)
      ensures err.None? ==> Valid(State())
    {
      var i := 0;
      while i < |ss|
        invariant 0 <= i <= |ss|
        invariant Valid(State())
        invariant ApplyFrom(schemas, old(State()), ss) == ApplyFrom(schemas, State(), ss[i..])
      {
        assert ss[i..][1..] == ss[i + 1..];
        err := ApplyStatement(ss[i]);
        if err.Some? {
          return;
        }
        i := i + 1;
      }
      err := None;
    }

    method ApplyStatement(st: Statement) returns (err: Option<ImportError>)
      requires Valid(State())
      modifies this
      ensures ApplyStep(schemas, old(State()), st) == if err.None? then Ok(State()) else Err(err.value)
      ensures err.None? ==> Valid(State())
    {
      var value := ResolveObject(subjects, st.obj);
      var found := SubjectOf(subjects, st);
      if found.None? {
        return Some(UntypedSubject(st.subj));
      }
      var n := found.value;
      var subject := objects[n];
      var property := Property(schemas, subject.kind, st.pred);
      if property == Some(Multiple) {
        objects := objects[n := Append(subject, st.pred, value)];
      } else if property == Some(Single) && HasSetter(schemas, subject.kind, st.pred) {
        objects := objects[n := Assign(subject, Fragment(st.pred).value, value)];
      }
      err := None;
    }
  }
}
