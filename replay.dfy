/**
 * Requests served one after another against the same table. The route keeps no state of its
 * own between requests: only the table's unique constraint links them.
 */
module Replay {
  import opened Wrappers
  import opened Domain
  import opened Classifier
  import opened Route

  /** One request: its payload and what the database raises, if anything, besides the unique index. */
  datatype Request = Request(payload: string, fault: Option<Failure>)

  /** The verdicts of `reqs` served in order, starting from a table holding `refs`. */
  function Verdicts(refs: set<string>, c: Collaborators, reqs: seq<Request>): (vs: seq<Verdict>)
    ensures |vs| == |reqs|
    decreases |reqs|
  {
    if reqs == [] then []
    else
      var v := Outcome(refs, c, reqs[0].payload, reqs[0].fault);
      [v] + Verdicts(After(refs, v), c, reqs[1..])
  }

  /** The references in the table after `reqs` have been served in order. */
  function FinalReferences(refs: set<string>, c: Collaborators, reqs: seq<Request>): set<string>
    decreases |reqs|
  {
    if reqs == [] then refs
    else
      var v := Outcome(refs, c, reqs[0].payload, reqs[0].fault);
      FinalReferences(After(refs, v), c, reqs[1..])
  }

  /** The reference a verdict commits, if any. */
  function CommittedReference(v: Verdict): Option<string> {
    if v.committed.Some? then Some(v.committed.value.reference) else None
  }

  /** Every reference committed by `vs` was absent from `refs`. */
  predicate CommitsAreFresh(refs: set<string>, vs: seq<Verdict>) {
    forall i :: 0 <= i < |vs| && CommittedReference(vs[i]).Some? ==> CommittedReference(vs[i]).value !in refs
  }

  /** No two verdicts of `vs` commit the same reference. */
  predicate CommitsAreDistinct(vs: seq<Verdict>) {
    forall i, j :: 0 <= i < j < |vs| && CommittedReference(vs[i]).Some? ==> CommittedReference(vs[j]) != CommittedReference(vs[i])
  }

  /**
   * No reference is committed twice: every committed reference was absent from the table
   * at the start, and two requests of the run never both commit the same reference.
   */
  lemma {:induction false} NoReferenceCommittedTwice(refs: set<string>, c: Collaborators, reqs: seq<Request>)
    ensures CommitsAreFresh(refs, Verdicts(refs, c, reqs))
    ensures CommitsAreDistinct(Verdicts(refs, c, reqs))
    decreases |reqs|
  {
    if reqs != [] {
      var v := Outcome(refs, c, reqs[0].payload, reqs[0].fault);
      var refs' := After(refs, v);
      var vs := Verdicts(refs, c, reqs);
      var rest := Verdicts(refs', c, reqs[1..]);
      NoReferenceCommittedTwice(refs', c, reqs[1..]);
      assert vs == [v] + rest;
      assert CommittedReference(v).Some? ==> CommittedReference(v).value in refs' && CommittedReference(v).value !in refs;
      forall i | 0 <= i < |vs| && CommittedReference(vs[i]).Some?
        ensures CommittedReference(vs[i]).value !in refs
      {
        if i > 0 {
          assert vs[i] == rest[i - 1];
        }
      }
      forall i, j | 0 <= i < j < |vs| && CommittedReference(vs[i]).Some?
        ensures CommittedReference(vs[j]) != CommittedReference(vs[i])
      {
        assert vs[j] == rest[j - 1];
        if i > 0 {
          assert vs[i] == rest[i - 1];
        }
      }
    }
  }

  /** Some verdict of `vs` commits the reference `r`. */
  predicate CommittedBy(vs: seq<Verdict>, r: string) {
    exists i :: 0 <= i < |vs| && CommittedReference(vs[i]) == Some(r)
  }

  /** A reference is committed by a run when its first verdict or the rest of the run commits it. */
  lemma CommittedByCons(v: Verdict, rest: seq<Verdict>, r: string)
    ensures CommittedBy([v] + rest, r) <==> CommittedReference(v) == Some(r) || CommittedBy(rest, r)
  {
    var vs := [v] + rest;
    if CommittedBy(rest, r) {
      var i :| 0 <= i < |rest| && CommittedReference(rest[i]) == Some(r);
      assert vs[i + 1] == rest[i];
    }
    if CommittedReference(v) == Some(r) {
      assert vs[0] == v;
    }
    if CommittedBy(vs, r) {
      var i :| 0 <= i < |vs| && CommittedReference(vs[i]) == Some(r);
      if i > 0 { assert vs[i] == rest[i - 1]; }
    }
  }

  /** A reference is in the table after the run exactly when it was there before or the run committed it. */
  lemma {:induction false} FinalReferencesAreCommits(refs: set<string>, c: Collaborators, reqs: seq<Request>, r: string)
    ensures r in FinalReferences(refs, c, reqs) <==> r in refs || CommittedBy(Verdicts(refs, c, reqs), r)
    decreases |reqs|
  {
    if reqs != [] {
      var v := Outcome(refs, c, reqs[0].payload, reqs[0].fault);
      var refs' := After(refs, v);
      var vs := Verdicts(refs, c, reqs);
      var rest := Verdicts(refs', c, reqs[1..]);
      FinalReferencesAreCommits(refs', c, reqs[1..], r);
      assert vs == [v] + rest;
      CommittedByCons(v, rest, r);
    }
  }

  /**
   * The same valid request sent twice: the first commits and succeeds, the second is
   * rejected as a duplicate, and the table gains the reference once.
   */
  lemma ReplayedRequest(refs: set<string>, c: Collaborators, payload: string, t: Transaction)
    requires Parse(c, payload) == Ok(t) && t.reference !in refs
    ensures var vs := Verdicts(refs, c, [Request(payload, None), Request(payload, None)]);
      && vs[0] == Verdict(Reply("600", "Transaction processed successfully.", 200), Some(t), true)
      && vs[1] == Verdict(Reply("601", "Duplicate reference received, try with another one.", 500), None, true)
    ensures FinalReferences(refs, c, [Request(payload, None), Request(payload, None)]) == refs + {t.reference}
  {
    var reqs := [Request(payload, None), Request(payload, None)];
    assert reqs[1..] == [Request(payload, None)];
    assert reqs[1..][1..] == [];
    var v0 := Outcome(refs, c, payload, None);
    assert After(refs, v0) == refs + {t.reference};
    var v1 := Outcome(refs + {t.reference}, c, payload, None);
    assert After(refs + {t.reference}, v1) == refs + {t.reference};
    assert FinalReferences(refs + {t.reference}, c, reqs[1..]) == FinalReferences(refs + {t.reference}, c, []);
    assert FinalReferences(refs, c, reqs) == FinalReferences(refs + {t.reference}, c, reqs[1..]);
  }
}
