/** What the build pass guarantees about the subject index it produces. */
module BuildProperties {
  import opened Wrappers
  import opened Rdf
  import opened Semantic
  import opened Queries
  import opened Connector

  /** A type statement whose type the registry does not know. */
  predicate Unregistered(st: Statement)
  {
    IsTypeStatement(st) && TypeKind(st.obj).None?
  }

  /**
   * The build pass fails exactly when some type is unregistered, and then
   * with the first such statement's error.
   */
  lemma {:induction false} BuildFailsOnFirstUnregistered(ix: Index, ss: seq<Statement>)
    requires Valid(ix)
    ensures BuildFrom(ix, ss).Err? <==> exists i :: 0 <= i < |ss| && Unregistered(ss[i])
    ensures forall i :: 0 <= i < |ss| && Unregistered(ss[i]) && (forall j :: 0 <= j < i ==> !Unregistered(ss[j])) ==>
      BuildFrom(ix, ss) == Err(UnknownSemanticType(ss[i].subj, ss[i].obj))
    decreases |ss|
  {
    if ss != [] {
      assert forall j :: 0 < j < |ss| ==> ss[j] == ss[1..][j - 1];
      match BuildStep(ix, ss[0])
      case Err(e) =>
        assert Unregistered(ss[0]);
      case Ok(ix') =>
        assert !Unregistered(ss[0]);
        BuildFailsOnFirstUnregistered(ix', ss[1..]);
        if exists i :: 0 <= i < |ss| && Unregistered(ss[i]) {
          var i :| 0 <= i < |ss| && Unregistered(ss[i]);
          assert Unregistered(ss[1..][i - 1]);
        }
        forall i | 0 <= i < |ss| && Unregistered(ss[i]) && (forall j :: 0 <= j < i ==> !Unregistered(ss[j]))
          ensures BuildFrom(ix, ss) == Err(UnknownSemanticType(ss[i].subj, ss[i].obj))
        {
          assert Unregistered(ss[1..][i - 1]);
          assert forall j :: 0 <= j < i - 1 ==> !Unregistered(ss[1..][j]);
        }
    }
  }

  /** The keys are the typed subjects, each once, in the order each was first typed. */
  lemma {:induction false} BuildKeysInFirstTypedOrder(ix: Index, ss: seq<Statement>)
    requires Valid(ix)
    requires BuildFrom(ix, ss).Ok?
    ensures BuildFrom(ix, ss).value.keys == Dedup(ix.keys, TypedSubjects(ss))
    decreases |ss|
  {
    if ss != [] {
      var ix' := BuildStep(ix, ss[0]).value;
      BuildKeysInFirstTypedOrder(ix', ss[1..]);
      if IsTypeStatement(ss[0]) {
        var xs := [ss[0].subj] + TypedSubjects(ss[1..]);
        assert TypedSubjects(ss) == xs && xs[0] == ss[0].subj && xs[1..] == TypedSubjects(ss[1..]);
      } else {
        assert TypedSubjects(ss) == TypedSubjects(ss[1..]);
      }
    }
  }

  /** From an empty index, the keys are exactly the typed subjects, and the map has exactly them. */
  lemma BuildIndexesTypedSubjects(ss: seq<Statement>)
    requires BuildFrom(EmptyIndex, ss).Ok?
    ensures BuildFrom(EmptyIndex, ss).value.keys == Dedup([], TypedSubjects(ss))
    ensures forall s :: s in BuildFrom(EmptyIndex, ss).value.at <==> Typed(ss, s)
  {
    BuildKeysInFirstTypedOrder(EmptyIndex, ss);
    DedupKeepsFirstOccurrences([], TypedSubjects(ss));
    TypedSubjectsAreTyped(ss);
  }

  /**
   * A subject typed in `ss` ends up with the empty object its LAST type
   * statement built, carrying the subject's value as id; any other subject
   * keeps what it had.
   */
  lemma {:induction false} BuildLastTypeWins(ix: Index, ss: seq<Statement>, s: Term)
    requires Valid(ix)
    requires BuildFrom(ix, ss).Ok?
    ensures var r := BuildFrom(ix, ss).value;
      if LastObject(ss, s, RdfType).Some? then
        var t := LastObject(ss, s, RdfType).value;
        s in r.at && TypeKind(t).Some? && r.objects[r.at[s]] == NewObject(TypeKind(t).value, TermValue(s))
      else
        (s in r.at <==> s in ix.at) && (s in ix.at ==> r.at[s] == ix.at[s])
    decreases |ss|
  {
    if ss != [] {
      var ix' := BuildStep(ix, ss[0]).value;
      BuildLastTypeWins(ix', ss[1..], s);
      var r := BuildFrom(ix', ss[1..]).value;
      if LastObject(ss[1..], s, RdfType).None? && About(ss[0], s, RdfType) {
        assert ix'.objects[ix'.at[s]] == NewObject(TypeKind(ss[0].obj).value, TermValue(s));
        assert r.objects[ix'.at[s]] == ix'.objects[ix'.at[s]];
      }
    }
  }
}
