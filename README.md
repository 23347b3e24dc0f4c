# Fund-transfer API: the transactions route

A Dafny model of the request pipeline behind `PUT /v1/transactions` in the fund-transfer API.
That pipeline is an Apache Camel route, `TransactionsRoute.configure()`. For each request it:

- validates the JSON payload against a schema;
- unmarshals the payload into a transaction record;
- runs one transacted `INSERT` inside a `doTry` block;
- picks the outcome from the ordered `doCatch` clauses;
- renders `status` and `message` into the body through one Freemarker template;
- wipes every header and sets only the HTTP response code and `Content-Type: application/json`.

Any exception that no `doCatch` clause takes goes to the shared error route. That includes schema-validation and unmarshal failures, which happen before the `doTry`. The error route replies status `601`, the exception's message and HTTP 500.

Modules, one per component of the route:

- `Domain`: the transaction record, the exceptions a request can raise, and the Java class hierarchy the handlers test (`IsA`).
- `Classifier`: the `doCatch` clauses as an ordered table (`DoCatchClauses`), the first-match lookup, the error route's reply, and `Classify`, which combines them.
- `Exchanges`: the Camel exchange as a class with mutable `headers`, `variables` and `body`. Each DSL step the route uses is a method: `setHeader`, `setVariable`, `removeHeaders("*")`, the template.
- `Store`: the `transactions` table as a class whose rows keep the unique constraint on `reference`. `Insert` adds the row only when the statement succeeds.
- `Route`: `Parse` (validator then unmarshal) and `Outcome`, the specification of one request as a pure function. Also the imperative `ErrorRoute` and `Process` methods, which drive the exchange and the table step by step and are proved to end in the state `Outcome` describes.
- `Replay`: requests served one after another against the same table, with the uniqueness and replay properties.

These are inputs, not implementations:

- The JSON-schema validator and the JSON unmarshaller are functions in `Route.Collaborators`.
- The database's own failures (connection loss, other constraints, …) are the `fault` parameter.
- The unique index on `reference` is modelled exactly: a taken reference raises `DuplicateKey`.

## Model

| member | source | states |
|---|---|---|
| `Domain.IsA` | src/main/java/co/nbc/fundtransferapi/routes/TransactionsRoute.java:75-79 | the classes the handlers name: an integrity violation is an `SQLException`; Spring's `DuplicateKeyException` is not |
| `Classifier.FirstMatch` | src/main/java/co/nbc/fundtransferapi/routes/TransactionsRoute.java:75-82 | ordered `doCatch` lookup, first match wins: the index returned catches the exception and no earlier clause does; `None` exactly when no clause catches it |
| `Classifier.DoCatchClausesCatch` | src/main/java/co/nbc/fundtransferapi/routes/TransactionsRoute.java:75-79 | clause one catches exactly integrity violations and duplicate keys; clause two catches exactly `SQLException`s (integrity violations included) |
| `Classifier.Classify` | src/main/java/co/nbc/fundtransferapi/routes/TransactionsRoute.java:75-82 | every insert failure gives 601 and HTTP 500; integrity or duplicate-key gives the fixed duplicate message; any other `SQLException`, or any exception that reaches the error route, passes its message through; only non-SQL exceptions escape the `doCatch` clauses |
| `Classifier.DuplicateClauseShadowsSqlClause` | src/main/java/co/nbc/fundtransferapi/routes/TransactionsRoute.java:75-82 | an integrity violation matches both clauses, and declaration order decides: the first clause wins and discards the message. With the clauses reversed the message would pass through, so the reply would differ |
| `Exchanges.Exchange.constructor` | src/main/java/co/nbc/fundtransferapi/routes/TransactionsRoute.java:62-64 | the REST consumer's exchange holds the request's transport headers, no variables, and the raw payload as its body |
| `Exchanges.Exchange.SetHeader` | src/main/java/co/nbc/fundtransferapi/routes/TransactionsRoute.java:72-73 | `setHeader` updates one header and nothing else |
| `Exchanges.Exchange.SetVariable` | src/main/java/co/nbc/fundtransferapi/routes/TransactionsRoute.java:74 | `setVariable` updates one exchange variable and nothing else |
| `Exchanges.Exchange.SetBody` | src/main/java/co/nbc/fundtransferapi/routes/TransactionsRoute.java:68 | the unmarshal step replaces the body and nothing else |
| `Exchanges.Exchange.RemoveAllHeaders` | src/main/java/co/nbc/fundtransferapi/routes/TransactionsRoute.java:85 | `removeHeaders("*")` leaves no header and keeps body and variables |
| `Exchanges.Exchange.RenderResponseTemplate` | src/main/java/co/nbc/fundtransferapi/routes/TransactionsRoute.java:26-27 | the one template, never taken from a header, renders the body from the `status` and `message` headers alone |
| `Store.InsertError` | src/main/java/co/nbc/fundtransferapi/routes/TransactionsRoute.java:71 | the INSERT succeeds exactly when the database raises no fault and the reference is not taken; a taken reference raises `DuplicateKey` |
| `Store.OneRowPerReference` | src/main/java/co/nbc/fundtransferapi/routes/TransactionsRoute.java:71 | under the unique constraint the table has exactly as many rows as distinct references |
| `Store.TransactionsTable.Insert` | src/main/java/co/nbc/fundtransferapi/routes/TransactionsRoute.java:69-71 | one attempt per call; it keeps the unique constraint; success appends exactly the record and adds its reference; failure rolls back and leaves the rows unchanged |
| `Route.ValidationBeforeUnmarshal` | src/main/java/co/nbc/fundtransferapi/routes/TransactionsRoute.java:68 | the schema validator runs before the unmarshaller: a payload that violates the schema fails with that violation's message, the same for any unmarshaller |
| `Route.After` | src/main/java/co/nbc/fundtransferapi/routes/TransactionsRoute.java:69-71 | a request adds at most one reference to the table and removes none |
| `Route.Outcome` | src/main/java/co/nbc/fundtransferapi/routes/TransactionsRoute.java:66-87 | status is 600 or 601; HTTP is 200 or 500; HTTP 200 iff status 600 iff a row is committed; the INSERT is attempted iff the payload parsed; a committed row is the parsed record, with a reference new to the table and no database fault |
| `Route.SuccessfulInsert` | src/main/java/co/nbc/fundtransferapi/routes/TransactionsRoute.java:71-74 | a fresh reference with no fault gives 600, "Transaction processed successfully.", HTTP 200, and commits the record |
| `Route.DuplicateReference` | src/main/java/co/nbc/fundtransferapi/routes/TransactionsRoute.java:75-78 | a reference already in the table gives 601, "Duplicate reference received, try with another one.", HTTP 500, and commits nothing |
| `Route.ConstraintViolation` | src/main/java/co/nbc/fundtransferapi/routes/TransactionsRoute.java:75-78 | any integrity or duplicate-key exception from the insert gives the fixed duplicate reply and commits nothing |
| `Route.OtherInsertFailure` | src/main/java/co/nbc/fundtransferapi/routes/TransactionsRoute.java:79-82 | any other exception from the insert gives 601, its message verbatim, HTTP 500, and commits nothing |
| `Route.RejectedPayload` | src/main/java/co/nbc/fundtransferapi/routes/TransactionsRoute.java:49-57 | a payload failing the schema or the unmarshal ends on the error route with 601, that exception's message and HTTP 500; the INSERT is never attempted, whatever the table holds |
| `Route.ErrorRoute` | src/main/java/co/nbc/fundtransferapi/routes/TransactionsRoute.java:51-57 | the error route renders 601 and the exception message into the body; the headers end as exactly two, the HTTP response code 500 and `Content-Type` = `application/json`, whatever headers came before |
| `Route.Process` | src/main/java/co/nbc/fundtransferapi/routes/TransactionsRoute.java:66-87 | whatever headers the request brought, the exchange ends with the body rendered from `Outcome`'s status and message; only two headers remain, the HTTP response code carrying `Outcome`'s code and `Content-Type` = `application/json`. The table gains exactly the committed row and keeps its constraint. The INSERT is sent exactly once when the payload parsed and never otherwise, so the request is never redelivered |
| `Replay.Verdicts` | src/main/java/co/nbc/fundtransferapi/routes/TransactionsRoute.java:66-87 | a run of requests served in order yields one verdict per request |
| `Replay.NoReferenceCommittedTwice` | src/main/java/co/nbc/fundtransferapi/routes/TransactionsRoute.java:69-78 | in any sequential run, every committed reference was absent at the start, and no two requests commit the same reference |
| `Replay.FinalReferencesAreCommits` | src/main/java/co/nbc/fundtransferapi/routes/TransactionsRoute.java:69-71 | after a run the table holds exactly the initial references plus those the run committed |
| `Replay.ReplayedRequest` | src/main/java/co/nbc/fundtransferapi/routes/TransactionsRoute.java:71-78 | the same valid request sent twice succeeds once (600/200) and is then rejected as a duplicate (601/500); the table gains the reference once |

## Left out

- Spring beans `transactionManager` and `PROPAGATION_REQUIRED`: dependency wiring. The transaction itself is reduced to "a failed insert adds no row".
- REST and servlet configuration (host, port, pretty printing, the PUT binding) and the port read from a system property: HTTP plumbing and ambient configuration. The model starts from the exchange the REST consumer creates.
- Schema validator, JSON unmarshaller and Freemarker template internals: foreign libraries. The first two are oracle functions. The template's text is not part of this model: the rendered body is represented by the (status, message) pair it is rendered from.
- SQL execution and the real driver's exception messages. The unique index's `DuplicateKey` carries the offending reference in place of the driver's text. The duplicate clause discards that text either way.
- Camel's `doCatch` also matches on an exception's cause chain (for example a Spring exception wrapping an `SQLException`). The model flattens this: each `Failure` is already the exception class that the clauses test.
- An exception whose message is null. The model's messages are always strings.
- Failures after the INSERT: the model's template rendering and the transaction's commit cannot fail. In the route, an exception from the template at line 85 (still inside `transacted()`) would reach the error route and answer 601/500. So `Route.Outcome`'s "HTTP 200 iff a row is committed" holds only under this assumption.
- Missing record fields: the unmarshal oracle always yields all five fields, which the schema is taken to guarantee. The route's `:#service … :#reference` parameters would otherwise fall back to same-named message headers. The model does not capture that fallback.
- Logging calls: no behaviour.
- Concurrent requests racing on one reference: concurrency is out of scope. The `Replay` module covers requests served one after another.
- Header-name case-insensitivity of Camel's header map: it does not change the outcome, because every header is removed before the response headers are set.
- `Replay.Verdicts`: only its length is stated in its own contract; what the verdicts are is stated by `Replay.NoReferenceCommittedTwice`, `Replay.FinalReferencesAreCommits` and `Replay.ReplayedRequest`.

Every failure, including a client's duplicate reference, is answered with HTTP 500. That is how the route is written, and the model keeps it.
