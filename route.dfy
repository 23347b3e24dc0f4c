/**
 * The `processTransaction` route and the `error` route: schema validation, JSON unmarshal,
 * one transacted INSERT inside doTry, the doCatch outcome table, response rendering and
 * the final header reshaping.
 */
module Route {
  import opened Wrappers
  import opened Domain
  import opened Classifier
  import opened Exchanges
  import opened Store

  /**
   * The two library steps in front of the doTry block, given as their outcomes on a payload:
   * the JSON schema validator (Some(message) when the payload violates the schema) and
   * the JSON unmarshaller.
   */
  datatype Collaborators = Collaborators(
    validate: string -> Option<string>,
    unmarshal: string -> Result<Transaction, string>)

  /**
   * `to(jsonSchemaValidator).unmarshal().json()`: a payload gets a record only if it passes
   * the schema and unmarshals; both failures are plain exceptions outside the doTry block.
   */
  function Parse(c: Collaborators, payload: string): Result<Transaction, Failure> {
    match c.validate(payload)
    case Some(violation) => Err(Other(violation))
    case None =>
      match c.unmarshal(payload)
      case Err(e) => Err(Other(e))
      case Ok(t) => Ok(t)
  }

  /**
   * Validation runs before unmarshal: a payload that violates the schema ends the same way
   * whatever the unmarshaller would have made of it, so the unmarshaller is never consulted.
   */
  lemma ValidationBeforeUnmarshal(c: Collaborators, other: Collaborators, payload: string)
    requires c.validate(payload).Some? && other.validate(payload) == c.validate(payload)
    ensures Parse(c, payload) == Parse(other, payload)
    ensures Parse(c, payload).Err? && Parse(c, payload).error == Other(c.validate(payload).value)
  {
  }

  /**
   * How a request ends: its reply, the row it commits (if any), and whether the INSERT was
   * sent to the database.
   */
  datatype Verdict = Verdict(reply: Reply, committed: Option<Transaction>, attempted: bool)

  /** The end of a request on `payload` against a table holding the references `refs`. */
  function Outcome(refs: set<string>, c: Collaborators, payload: string, fault: Option<Failure>): (v: Verdict)
    ensures v.reply.status == SuccessStatus || v.reply.status == FailureStatus
    ensures v.reply.httpCode == 200 || v.reply.httpCode == 500
    ensures v.reply.httpCode == 200 <==> v.reply.status == SuccessStatus
    ensures v.reply.status == SuccessStatus <==> v.committed.Some?
    ensures v.attempted <==> Parse(c, payload).Ok?
    ensures v.committed.Some? ==>
      Parse(c, payload) == Ok(v.committed.value) && v.committed.value.reference !in refs && fault.None?
  {
    match Parse(c, payload)
    case Err(f) => Verdict(ErrorReply(f), None, false)
    case Ok(t) =>
      match InsertError(refs, t, fault)
      case None => Verdict(SuccessReply, Some(t), true)
      case Some(f) => Verdict(Classify(f), None, true)
  }

  /** The references in the table once a request with verdict `v` has ended. */
  function After(refs: set<string>, v: Verdict): (r: set<string>)
    ensures refs <= r
    ensures |r - refs| <= 1
  {
    if v.committed.Some? then refs + {v.committed.value.reference} else refs
  }

  /** A successful insert: status 600, the fixed success message, HTTP 200, one row committed. */
  lemma SuccessfulInsert(refs: set<string>, c: Collaborators, payload: string, t: Transaction)
    requires Parse(c, payload) == Ok(t) && t.reference !in refs
    ensures Outcome(refs, c, payload, None) == Verdict(Reply("600", "Transaction processed successfully.", 200), Some(t), true)
  {
  }

  /** A reference already in the table: status 601, the fixed duplicate message, HTTP 500, nothing committed. */
  lemma DuplicateReference(refs: set<string>, c: Collaborators, payload: string, t: Transaction)
    requires Parse(c, payload) == Ok(t) && t.reference in refs
    ensures Outcome(refs, c, payload, None) ==
      Verdict(Reply("601", "Duplicate reference received, try with another one.", 500), None, true)
  {
  }

  /** Any integrity or duplicate-key exception from the insert reports the duplicate message. */
  lemma ConstraintViolation(refs: set<string>, c: Collaborators, payload: string, f: Failure)
    requires Parse(c, payload).Ok? && (f.IntegrityViolation? || f.DuplicateKey?)
    ensures Outcome(refs, c, payload, Some(f)) ==
      Verdict(Reply("601", "Duplicate reference received, try with another one.", 500), None, true)
  {
  }

  /** Any other exception from the insert passes its message through verbatim with status 601 and HTTP 500. */
  lemma OtherInsertFailure(refs: set<string>, c: Collaborators, payload: string, f: Failure)
    requires Parse(c, payload).Ok? && (f.OtherSql? || f.Other?)
    ensures Outcome(refs, c, payload, Some(f)) == Verdict(Reply("601", f.message, 500), None, true)
  {
  }

  /**
   * A payload that fails the schema or the unmarshal never reaches the database, whatever
   * state the table is in: the error route replies 601 with the exception's message and HTTP 500.
   */
  lemma RejectedPayload(refs: set<string>, c: Collaborators, payload: string, fault: Option<Failure>)
    requires c.validate(payload).Some? || c.unmarshal(payload).Err?
    ensures var m := if c.validate(payload).Some? then c.validate(payload).value else c.unmarshal(payload).error;
      Outcome(refs, c, payload, fault) == Verdict(Reply("601", m, 500), None, false)
  {
  }

  /**
   * The error route: status 601 and the exception's message as headers, the template,
   * then `removeHeaders("*")`, HTTP 500 and the JSON content type.
   */
  method ErrorRoute(ex: Exchange, f: Failure)
    modifies ex
    ensures ex.body == Rendered(ErrorReply(f).status, ErrorReply(f).message)
    ensures ex.headers == ResponseHeaders(ErrorReply(f).httpCode)
    ensures ex.variables == old(ex.variables)
  {
    ex.SetHeader(StatusHeader, Text(FailureStatus));
    ex.SetHeader(MessageHeader, Text(f.message));
    ex.RenderResponseTemplate();
    ex.RemoveAllHeaders();
    ex.SetHeader(HttpResponseCode, Number(500));
    ex.SetHeader(ContentType, Text(JsonMediaType));
  }

  /**
   * The `processTransaction` route on an exchange fresh from the REST consumer. Whatever headers
   * the request carried, the exchange ends with the rendered reply as its body and only the
   * response headers; the table gains the record exactly when the insert succeeds, and the
   * INSERT is sent at most once, never for a payload that failed validation or unmarshal.
   */
  method Process(ex: Exchange, table: TransactionsTable, c: Collaborators, fault: Option<Failure>)
    requires ex.body.Raw? && table.Valid()
    modifies ex, table
    ensures table.Valid()
    ensures var v := Outcome(old(table.References()), c, old(ex.body.text), fault);
      && ex.body == Rendered(v.reply.status, v.reply.message)
      && ex.headers == ResponseHeaders(v.reply.httpCode)
      && table.rows == old(table.rows) + (if v.committed.Some? then [v.committed.value] else [])
      && table.References() == After(old(table.References()), v)
      && table.attempts == old(table.attempts) + (if v.attempted then 1 else 0)
  {
    var payload := ex.body.text;
    // to(jsonSchemaValidator): a violation is an exception outside the doTry block
    var violation := c.validate(payload);
    if violation.Some? {
      ErrorRoute(ex, Other(violation.value));
      return;
    }
    // unmarshal().json()
    var record := c.unmarshal(payload);
    if record.Err? {
      ErrorRoute(ex, Other(record.error));
      return;
    }
    var t := record.value;
    ex.SetBody(Record(t));
    // transacted().doTry(): the INSERT
    var error := table.Insert(t, fault);
    match error {
      case None =>
        ex.SetHeader(SqlUpdateCount, Number(1));
        ex.SetHeader(StatusHeader, Text(SuccessReply.status));
        ex.SetHeader(MessageHeader, Text(SuccessReply.message));
        ex.SetVariable(HttpStatusCodeVariable, Number(SuccessReply.httpCode));
      case Some(f) =>
        var clause := FirstMatch(DoCatchClauses, f);
        if clause.None? {
          // no doCatch clause applies: onException(Exception.class) sends it to the error route
          ErrorRoute(ex, f);
          return;
        }
        var reply := ClauseReply(DoCatchClauses[clause.value], f);
        ex.SetHeader(StatusHeader, Text(reply.status));
        ex.SetHeader(MessageHeader, Text(reply.message));
        ex.SetVariable(HttpStatusCodeVariable, Number(reply.httpCode));
    }
    // to(freemarkerResponseTemplate).removeHeaders("*"), then the two response headers
    ex.RenderResponseTemplate();
    ex.RemoveAllHeaders();
    ex.SetHeader(HttpResponseCode, ex.variables[HttpStatusCodeVariable]);
    ex.SetHeader(ContentType, Text(JsonMediaType));
  }
}
