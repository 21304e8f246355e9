/** What the apply pass does to the objects of a fixed subject index. */
module ApplyProperties {
  import opened Wrappers
  import opened Rdf
  import opened Ontology
  import opened Semantic
  import opened Queries
  import opened Connector

  /**
   * The apply pass fails exactly when some statement's subject is not in the
   * index, and then with the first such statement's error.
   */
  lemma {:induction false} ApplyFailsOnFirstUntyped(schemas: map<Kind, Schema>, ix: Index, ss: seq<Statement>)
    requires Valid(ix)
    ensures ApplyFrom(schemas, ix, ss).Err? <==> exists i :: 0 <= i < |ss| && ss[i].subj !in ix.at
    ensures forall i :: 0 <= i < |ss| && ss[i].subj !in ix.at && (forall j :: 0 <= j < i ==> ss[j].subj in ix.at) ==>
      ApplyFrom(schemas, ix, ss) == Err(UntypedSubject(ss[i].subj))
    decreases |ss|
  {
    if ss != [] {
      assert forall j :: 0 < j < |ss| ==> ss[j] == ss[1..][j - 1];
      if ss[0].subj in ix.at {
        var ix' := ApplyStep(schemas, ix, ss[0]).value;
        ApplyFailsOnFirstUntyped(schemas, ix', ss[1..]);
        if exists i :: 0 <= i < |ss| && ss[i].subj !in ix.at {
          var i :| 0 <= i < |ss| && ss[i].subj !in ix.at;
          assert ss[1..][i - 1].subj !in ix'.at;
        }
        forall i | 0 <= i < |ss| && ss[i].subj !in ix.at && (forall j :: 0 <= j < i ==> ss[j].subj in ix.at)
          ensures ApplyFrom(schemas, ix, ss) == Err(UntypedSubject(ss[i].subj))
        {
          assert ss[1..][i - 1].subj !in ix'.at;
          assert forall j :: 0 <= j < i - 1 ==> ss[1..][j].subj in ix'.at;
        }
      }
    }
  }

  /** The values the statements on `s` and `pred` carry, resolved against `at`, in statement order. */
  function Collected(at: map<Term, nat>, ss: seq<Statement>, s: Term, pred: string): seq<Value>
  {
    if ss == [] then []
    else (if About(ss[0], s, pred) then [ResolveObject(at, ss[0].obj)] else []) + Collected(at, ss[1..], s, pred)
  }

  /** One statement's effect on one collection of one object. */
  lemma StepOnCollection(schemas: map<Kind, Schema>, ix: Index, st: Statement, s: Term, pred: string)
    requires Valid(ix) && s in ix.at && st.subj in ix.at
    requires Property(schemas, ix.objects[ix.at[s]].kind, pred) == Some(Multiple)
    ensures Collection(ApplyStep(schemas, ix, st).value.objects[ix.at[s]], pred)
         == Collection(ix.objects[ix.at[s]], pred) + if About(st, s, pred) then [ResolveObject(ix.at, st.obj)] else []
  {
    var n, m := ix.at[s], ix.at[st.subj];
    var after := ApplyStep(schemas, ix, st).value.objects;
    if m != n {
      assert after[n] == ix.objects[n];
    }
  }

  /**
   * `st` calls the writer `w=` of an object of kind `k` standing for `s`: a
   * declared single-valued property whose predicate has fragment `w`, and a
   * class that has that writer.
   */
  predicate Writes(schemas: map<Kind, Schema>, k: Kind, st: Statement, s: Term, w: string)
  {
    st.subj == s && Property(schemas, k, st.pred) == Some(Single) && HasSetter(schemas, k, st.pred)
    && Fragment(st.pred) == Some(w)
  }

  /** The object of the last statement that calls writer `w` on `s`, if any. */
  function LastWrite(schemas: map<Kind, Schema>, k: Kind, ss: seq<Statement>, s: Term, w: string): Option<Term>
  {
    if ss == [] then None
    else
      match LastWrite(schemas, k, ss[1..], s, w)
      case Some(o) => Some(o)
      case None => if Writes(schemas, k, ss[0], s, w) then Some(ss[0].obj) else None
  }

  /** One statement's effect on one scalar of one object. */
  lemma StepOnScalar(schemas: map<Kind, Schema>, ix: Index, st: Statement, s: Term, w: string)
    requires Valid(ix) && s in ix.at && st.subj in ix.at
    ensures var before := ix.objects[ix.at[s]];
      var after := ApplyStep(schemas, ix, st).value.objects[ix.at[s]];
      if Writes(schemas, before.kind, st, s, w) then
        w in after.scalars && after.scalars[w] == ResolveObject(ix.at, st.obj)
      else
        (w in after.scalars <==> w in before.scalars)
        && (w in before.scalars ==> after.scalars[w] == before.scalars[w])
  {
    var n, m := ix.at[s], ix.at[st.subj];
    var after := ApplyStep(schemas, ix, st).value.objects;
    if m != n {
      assert after[n] == ix.objects[n];
    }
  }

  /**
   * A multi-valued property keeps what it had and gains one element per
   * statement on it, at the end, in statement order, duplicates kept.
   */
  lemma {:induction false} MultiValuedAppendsInOrder(schemas: map<Kind, Schema>, ix: Index, ss: seq<Statement>, s: Term, pred: string)
    requires Valid(ix) && s in ix.at
    requires Property(schemas, ix.objects[ix.at[s]].kind, pred) == Some(Multiple)
    requires ApplyFrom(schemas, ix, ss).Ok?
    ensures Collection(ApplyFrom(schemas, ix, ss).value.objects[ix.at[s]], pred)
         == Collection(ix.objects[ix.at[s]], pred) + Collected(ix.at, ss, s, pred)
    decreases |ss|
  {
    if ss != [] {
      var ix' := ApplyStep(schemas, ix, ss[0]).value;
      var n := ix.at[s];
      assert Valid(ix') && ix'.at == ix.at && ix'.objects[n].kind == ix.objects[n].kind;
      MultiValuedAppendsInOrder(schemas, ix', ss[1..], s, pred);
      StepOnCollection(schemas, ix, ss[0], s, pred);
      var head := if About(ss[0], s, pred) then [ResolveObject(ix.at, ss[0].obj)] else [];
      var before, mid := Collection(ix.objects[n], pred), Collection(ix'.objects[n], pred);
      var tail := Collected(ix.at, ss[1..], s, pred);
      assert Collected(ix.at, ss, s, pred) == head + tail;
      assert mid == before + head;
      assert (before + head) + tail == before + (head + tail);
    }
  }

  /**
   * The scalar behind writer `w` holds the value of the last statement that
   * calls `w=`; when no statement does, it keeps what it had.
   */
  lemma {:induction false} ScalarLastWriteWins(schemas: map<Kind, Schema>, ix: Index, ss: seq<Statement>, s: Term, w: string)
    requires Valid(ix) && s in ix.at
    requires ApplyFrom(schemas, ix, ss).Ok?
    ensures var before := ix.objects[ix.at[s]];
      var after := ApplyFrom(schemas, ix, ss).value.objects[ix.at[s]];
      var last := LastWrite(schemas, before.kind, ss, s, w);
      if last.Some? then
        w in after.scalars && after.scalars[w] == ResolveObject(ix.at, last.value)
      else
        (w in after.scalars <==> w in before.scalars)
        && (w in before.scalars ==> after.scalars[w] == before.scalars[w])
    decreases |ss|
  {
    if ss != [] {
      var ix' := ApplyStep(schemas, ix, ss[0]).value;
      assert Valid(ix') && ix'.objects[ix.at[s]].kind == ix.objects[ix.at[s]].kind;
      ScalarLastWriteWins(schemas, ix', ss[1..], s, w);
      StepOnScalar(schemas, ix, ss[0], s, w);
    }
  }

  /**
   * When no two declared predicates share a fragment, the writer named by a
   * declared predicate's fragment is called by the statements on that
   * predicate alone, provided it is single-valued and has a setter.
   */
  lemma {:induction false} LastWriteOfPredicate(schemas: map<Kind, Schema>, k: Kind, ss: seq<Statement>, s: Term, pred: string)
    requires UniqueWriters(schemas)
    requires Property(schemas, k, pred).Some? && Fragment(pred).Some?
    ensures LastWrite(schemas, k, ss, s, Fragment(pred).value)
         == if Property(schemas, k, pred) == Some(Single) && HasSetter(schemas, k, pred) then LastObject(ss, s, pred) else None
    decreases |ss|
  {
    if ss != [] {
      LastWriteOfPredicate(schemas, k, ss[1..], s, pred);
      var w := Fragment(pred).value;
      if Writes(schemas, k, ss[0], s, w) {
        assert ss[0].pred == pred;
      } else if About(ss[0], s, pred) {
        assert !(Property(schemas, k, pred) == Some(Single) && HasSetter(schemas, k, pred));
      }
    }
  }

  /** A statement the subject's kind does not recognise, or a scalar it has no setter for. */
  predicate Ignored(schemas: map<Kind, Schema>, k: Kind, pred: string)
  {
    Property(schemas, k, pred).None? || (Property(schemas, k, pred) == Some(Single) && !HasSetter(schemas, k, pred))
  }

  /**
   * When a class declares only business-ontology predicates, as every
   * registered class does (`Ontology.DfcPredicates`), the apply pass passes
   * over each type statement the build pass used.
   */
  lemma TypeStatementsIgnored(schemas: map<Kind, Schema>, k: Kind, st: Statement)
    requires forall p :: Property(schemas, k, p).Some? ==> exists local :: p == Dfc(local)
    requires IsTypeStatement(st)
    ensures Ignored(schemas, k, st.pred)
  {
  }

  /** An ignored statement on a typed subject changes nothing: dropping it gives the same import. */
  lemma {:induction false} IgnoredStatementChangesNothing(schemas: map<Kind, Schema>, ix: Index, ss: seq<Statement>, i: nat)
    requires Valid(ix) && i < |ss|
    requires ss[i].subj in ix.at && Ignored(schemas, ix.objects[ix.at[ss[i].subj]].kind, ss[i].pred)
    ensures ApplyFrom(schemas, ix, ss) == ApplyFrom(schemas, ix, ss[..i] + ss[i + 1..])
    decreases |ss|
  {
    if i == 0 {
      assert ApplyStep(schemas, ix, ss[0]) == Ok(ix);
      assert ss[..0] + ss[1..] == ss[1..];
    } else {
      var rest := ss[..i] + ss[i + 1..];
      assert rest[0] == ss[0] && rest[1..] == ss[1..][..i - 1] + ss[1..][i..];
      match ApplyStep(schemas, ix, ss[0])
      case Err(_) =>
      case Ok(ix') =>
        assert Valid(ix');
        IgnoredStatementChangesNothing(schemas, ix', ss[1..], i - 1);
    }
  }

  /** An object no statement is about leaves the apply pass as it entered. */
  lemma {:induction false} UntouchedObjectUnchanged(schemas: map<Kind, Schema>, ix: Index, ss: seq<Statement>, n: nat)
    requires Valid(ix) && n < |ix.objects|
    requires forall i :: 0 <= i < |ss| && ss[i].subj in ix.at ==> ix.at[ss[i].subj] != n
    requires ApplyFrom(schemas, ix, ss).Ok?
    ensures ApplyFrom(schemas, ix, ss).value.objects[n] == ix.objects[n]
    decreases |ss|
  {
    if ss != [] {
      var ix' := ApplyStep(schemas, ix, ss[0]).value;
      assert Valid(ix');
      assert forall i :: 0 <= i < |ss[1..]| ==> ss[1..][i] == ss[i + 1];
      UntouchedObjectUnchanged(schemas, ix', ss[1..], n);
    }
  }
}
