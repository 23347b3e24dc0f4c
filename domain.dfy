/** The values the transactions route carries: the transaction record and the exceptions it can raise. */
module Domain {

  /** The JSON body after unmarshalling; the five columns of the INSERT statement. */
  datatype Transaction = Transaction(service: string, name: string, amount: real, account: string, reference: string)

  /**
   * An exception raised while a request is processed, named by the Java class the route's
   * handlers test for. Every Java exception carries a message.
   */
  datatype Failure =
    | IntegrityViolation(message: string)  // java.sql.SQLIntegrityConstraintViolationException
    | DuplicateKey(message: string)        // org.springframework.dao.DuplicateKeyException
    | OtherSql(message: string)            // any other java.sql.SQLException
    | Other(message: string)               // any other exception: schema violation, unmarshal error, ...

  /** The exception classes that the route's doCatch and onException clauses name. */
  datatype ExceptionClass =
    | SqlIntegrityConstraintViolationException
    | DuplicateKeyException
    | SqlException
    | AnyException

  /**
   * `f instanceof c`. SQLIntegrityConstraintViolationException extends SQLException;
   * Spring's DuplicateKeyException is a runtime exception outside the SQLException hierarchy.
   */
  predicate IsA(f: Failure, c: ExceptionClass) {
    match c
    case AnyException => true
    case SqlException => f.IntegrityViolation? || f.OtherSql?
    case SqlIntegrityConstraintViolationException => f.IntegrityViolation?
    case DuplicateKeyException => f.DuplicateKey?
  }
}
