/**
 * Reference definitions over a statement list, independent of the importer:
 * which subjects are typed, in which order they first are, and which object
 * the last statement on a subject and predicate carries.
 */
module Queries {
  import opened Wrappers
  import opened Rdf

  /** The subject of some type statement. */
  ghost predicate Typed(ss: seq<Statement>, s: Term)
  {
    exists i :: 0 <= i < |ss| && IsTypeStatement(ss[i]) && ss[i].subj == s
  }

  /** The subjects of the type statements, in statement order, repeats kept. */
  function TypedSubjects(ss: seq<Statement>): seq<Term>
  {
    if ss == [] then []
    else (if IsTypeStatement(ss[0]) then [ss[0].subj] else []) + TypedSubjects(ss[1..])
  }

  lemma {:induction false} TypedSubjectsAreTyped(ss: seq<Statement>)
    ensures forall s :: s in TypedSubjects(ss) <==> Typed(ss, s)
  {
    if ss != [] {
      TypedSubjectsAreTyped(ss[1..]);
      forall s | Typed(ss, s) ensures s in TypedSubjects(ss) {
        var i :| 0 <= i < |ss| && IsTypeStatement(ss[i]) && ss[i].subj == s;
        if i > 0 {
          assert ss[1..][i - 1] == ss[i];
        }
      }
      forall s | s in TypedSubjects(ss) ensures Typed(ss, s) {
        if !(IsTypeStatement(ss[0]) && ss[0].subj == s) {
          assert s in TypedSubjects(ss[1..]);
          var i :| 0 <= i < |ss[1..]| && IsTypeStatement(ss[1..][i]) && ss[1..][i].subj == s;
          assert ss[i + 1] == ss[1..][i];
        }
      }
    }
  }

  /** `seen` followed by each element of `xs` that was not seen before: first occurrences, in order. */
  function Dedup(seen: seq<Term>, xs: seq<Term>): seq<Term>
    decreases |xs|
  {
    if xs == [] then seen
    else Dedup(if xs[0] in seen then seen else seen + [xs[0]], xs[1..])
  }

  ghost predicate NoRepeats(xs: seq<Term>)
  {
    forall i, j :: 0 <= i < j < |xs| ==> xs[i] != xs[j]
  }

  lemma {:induction false} DedupKeepsFirstOccurrences(seen: seq<Term>, xs: seq<Term>)
    requires NoRepeats(seen)
    ensures NoRepeats(Dedup(seen, xs))
    ensures seen <= Dedup(seen, xs)
    ensures forall x :: x in Dedup(seen, xs) <==> x in seen || x in xs
    decreases |xs|
  {
    if xs != [] {
      var seen' := if xs[0] in seen then seen else seen + [xs[0]];
      assert NoRepeats(seen');
      DedupKeepsFirstOccurrences(seen', xs[1..]);
      assert forall x :: x in xs <==> x == xs[0] || x in xs[1..];
    }
  }

  /** The object of the last statement on subject `s` with predicate `pred`. */
  function LastObject(ss: seq<Statement>, s: Term, pred: string): Option<Term>
  {
    if ss == [] then None
    else
      match LastObject(ss[1..], s, pred)
      case Some(o) => Some(o)
      case None => if ss[0].subj == s && ss[0].pred == pred then Some(ss[0].obj) else None
  }

  predicate About(st: Statement, s: Term, pred: string)
  {
    st.subj == s && st.pred == pred
  }

  lemma {:induction false} LastObjectIsLast(ss: seq<Statement>, s: Term, pred: string)
    ensures LastObject(ss, s, pred).None? <==> forall i :: 0 <= i < |ss| ==> !About(ss[i], s, pred)
    ensures LastObject(ss, s, pred).Some? ==>
      exists i :: 0 <= i < |ss| && About(ss[i], s, pred) && ss[i].obj == LastObject(ss, s, pred).value
        && forall j :: i < j < |ss| ==> !About(ss[j], s, pred)
  {
    if ss != [] {
      LastObjectIsLast(ss[1..], s, pred);
      assert forall j :: 0 < j < |ss| ==> ss[j] == ss[1..][j - 1];
      match LastObject(ss[1..], s, pred)
      case Some(o) =>
        var i :| 0 <= i < |ss[1..]| && About(ss[1..][i], s, pred) && ss[1..][i].obj == o
          && forall j :: i < j < |ss[1..]| ==> !About(ss[1..][j], s, pred);
        assert About(ss[i + 1], s, pred) && ss[i + 1].obj == o;
      case None =>
        if About(ss[0], s, pred) {
          assert forall j :: 0 < j < |ss| ==> !About(ss[j], s, pred);
        }
    }
  }

  /** The only statement on `s` and `pred` supplies the last object. */
  lemma LastObjectOfOnly(ss: seq<Statement>, s: Term, pred: string, i: nat)
    requires i < |ss| && About(ss[i], s, pred)
    requires forall j :: 0 <= j < |ss| && j != i ==> !About(ss[j], s, pred)
    ensures LastObject(ss, s, pred) == Some(ss[i].obj)
  {
    LastObjectIsLast(ss, s, pred);
  }

  /** One step of the typed-subject scan, from position `k`. */
  lemma TypedSubjectsFrom(ss: seq<Statement>, k: nat)
    requires k < |ss|
    ensures TypedSubjects(ss[k..]) == (if IsTypeStatement(ss[k]) then [ss[k].subj] else []) + TypedSubjects(ss[k + 1..])
  {
    assert ss[k..][1..] == ss[k + 1..];
  }

  /** Skips a stretch of statements with no type statement in the scan. */
  lemma {:induction false} NoTypedSubjectsPrefix(ss: seq<Statement>, k: nat, m: nat)
    requires k <= m <= |ss|
    requires forall i :: k <= i < m ==> !IsTypeStatement(ss[i])
    ensures TypedSubjects(ss[k..]) == TypedSubjects(ss[m..])
    decreases m - k
  {
    if k < m {
      TypedSubjectsFrom(ss, k);
      NoTypedSubjectsPrefix(ss, k + 1, m);
    }
  }
}
