/**
 * The outcome table of the route: the ordered doCatch clauses of the insert's doTry block,
 * and the error route that every other exception reaches.
 */
module Classifier {
  import opened Wrappers
  import opened Domain

  const SuccessStatus := "600"
  const FailureStatus := "601"
  const SuccessMessage := "Transaction processed successfully."
  const DuplicateMessage := "Duplicate reference received, try with another one."

  /** The status and message headers and the HTTP code a request ends with. */
  datatype Reply = Reply(status: string, message: string, httpCode: int)

  /** The reply of a successful insert. */
  const SuccessReply := Reply(SuccessStatus, SuccessMessage, 200)

  /** Where a clause takes its message from: a constant, or `${exception.message}`. */
  datatype MessageSource = Fixed(text: string) | ExceptionMessage

  /** One `doCatch(E1, E2, ...)` clause and the headers and variable it sets. */
  datatype CatchClause = CatchClause(exceptions: seq<ExceptionClass>, status: string, message: MessageSource, httpCode: int)

  /** The clause catches `f` when `f` is an instance of one of its classes. */
  predicate Catches(clause: CatchClause, f: Failure) {
    exists c :: c in clause.exceptions && IsA(f, c)
  }

  /** The doCatch clauses, in the order they are declared. */
  const DoCatchClauses: seq<CatchClause> := [
    CatchClause([SqlIntegrityConstraintViolationException, DuplicateKeyException], FailureStatus, Fixed(DuplicateMessage), 500),
    CatchClause([SqlException], FailureStatus, ExceptionMessage, 500)
  ]

  /** The index of the first clause that catches `f`, or None when no clause does. */
  function FirstMatch(clauses: seq<CatchClause>, f: Failure): (r: Option<nat>)
    ensures r.Some? ==> r.value < |clauses| && Catches(clauses[r.value], f)
    ensures r.Some? ==> forall j :: 0 <= j < r.value ==> !Catches(clauses[j], f)
    ensures r.None? ==> forall j :: 0 <= j < |clauses| ==> !Catches(clauses[j], f)
  {
    if clauses == [] then None
    else if Catches(clauses[0], f) then Some(0)
    else
      match FirstMatch(clauses[1..], f)
      case None => None
      case Some(k) => Some(k + 1)
  }

  /** What a clause that caught `f` sets. */
  function ClauseReply(clause: CatchClause, f: Failure): Reply {
    var message := match clause.message
      case Fixed(text) => text
      case ExceptionMessage => f.message;
    Reply(clause.status, message, clause.httpCode)
  }

  /** The error route: status 601, the exception's message, HTTP 500. */
  function ErrorReply(f: Failure): Reply {
    Reply(FailureStatus, f.message, 500)
  }

  /**
   * The reply for an exception raised by the insert: the first doCatch clause that catches it,
   * and the error route when none does.
   */
  function Classify(f: Failure): (r: Reply)
    ensures r.status == FailureStatus && r.httpCode == 500
    ensures f.IntegrityViolation? || f.DuplicateKey? ==> r.message == DuplicateMessage
    ensures f.OtherSql? || f.Other? ==> r.message == f.message
    ensures FirstMatch(DoCatchClauses, f).None? <==> f.Other?
  {
    DoCatchClausesCatch(f);
    match FirstMatch(DoCatchClauses, f)
    case Some(k) => ClauseReply(DoCatchClauses[k], f)
    case None => ErrorReply(f)
  }

  /** Which exceptions each doCatch clause catches. */
  lemma DoCatchClausesCatch(f: Failure)
    ensures Catches(DoCatchClauses[0], f) <==> f.IntegrityViolation? || f.DuplicateKey?
    ensures Catches(DoCatchClauses[1], f) <==> f.IntegrityViolation? || f.OtherSql?
  {
    if f.IntegrityViolation? {
      assert SqlIntegrityConstraintViolationException in DoCatchClauses[0].exceptions;
      assert SqlException in DoCatchClauses[1].exceptions;
    } else if f.DuplicateKey? {
      assert DuplicateKeyException in DoCatchClauses[0].exceptions;
    } else if f.OtherSql? {
      assert SqlException in DoCatchClauses[1].exceptions;
    }
  }

  /**
   * An integrity violation is an SQLException too, so both clauses catch it; the first one wins
   * and the exception's own message is discarded. With the clauses in the other order the
   * message would be passed through.
   */
  lemma {:induction false} DuplicateClauseShadowsSqlClause(m: string)
    requires m != DuplicateMessage
    ensures Catches(DoCatchClauses[0], IntegrityViolation(m)) && Catches(DoCatchClauses[1], IntegrityViolation(m))
    ensures Classify(IntegrityViolation(m)).message == DuplicateMessage
    ensures FirstMatch([DoCatchClauses[1], DoCatchClauses[0]], IntegrityViolation(m)) == Some(0)
    ensures ClauseReply(DoCatchClauses[1], IntegrityViolation(m)).message == m
    ensures Classify(IntegrityViolation(m)).message != ClauseReply(DoCatchClauses[1], IntegrityViolation(m)).message
  {
    DoCatchClausesCatch(IntegrityViolation(m));
  }
}
