# EOI core in Dafny

EOI is a small Java ORM. This project models two parts of its core and proves what they guarantee.

The first part is the column metadata of a mapped field, `DBMapField`. That includes the DDL fragment `getColumnDefinition` builds. The fragment is a type clause (`varchar2(N)`, `integer`, `bigint`, `decimal(P,S)`, `timestamp`, `blob`, `boolean`), then ` PRIMARY KEY`, then ` NOT NULL`. While building it, the method writes default sizes back into the field.

The second part is the per-thread connection discipline of `EOI`, together with the statement logic around it:

- `getConnection`, `startTransaction`, `commit`, `rollback` and `closeConnection`, with the deferred release that keeps a transaction's connection bound;
- the type-dispatched parameter binder and the parameter loops of `executePreparedUpdate`, `_insert`, `_update` and `executeQuery`;
- the audit rows `createAudit` writes, with the object-key rule and the recursion guard;
- the `<NULL>` rendering of update deltas;
- the success count of `_insertFromList`;
- the first-or-null choice of `executeQueryOneResult`.

The database is abstracted to its answers:

- whether the pool hands out a connection;
- whether commit and rollback succeed;
- what each statement returns: an update count, a generated key or parsed rows, or an `SQLException`.

Everything the database and the object cache see is recorded, in order, as an event of the execution context.

Layout:

- `wrappers.dfy`: `Option`, where `None` stands for Java's `null`.
- `numerals.dfy`: the decimal text Java's string concatenation gives an `int` or a `long`, and a parser that reads it back.
- `column_def.dfy`: the field record, the class `DBMapField` with `getColumnDefinition`, and the definition as a function. It also has a parser for definitions, which is the partner of the round-trip lemmas.
- `parameters.dfy`: the JDBC parameter binder, a `PreparedStatement` class, and the parameter loops.
- `audit.dfy`: the audit statement, the object key and the delta rendering.
- `connections.dfy`: each EOI operation as a function from the context before it to the context after it.
- `transactions.dfy`: what those functions guarantee. This covers which connection a statement runs on, when a connection is released, when the database sees a rollback, and two invariants every public operation keeps:
  - `Valid`: connection identities are fresh, and no closed connection is used again;
  - `AtRest`: between operations, a bound connection always belongs to an open transaction.
- `execution_context.dfy`: the class `ExecutionContext`, whose fields are EOI's static state. Its methods mirror EOI's static methods, and each is proved to refine its function in `connections.dfy`.

Error handling, as EOI does it:

- A `commit` or `rollback` that throws is caught and logged, and the connection stays bound (`Connections.Commit`, `Connections.Rollback`).
- Binding a value of an unsupported class binds nothing (`Parameters.SetPreparedStatementParameter`).
- Statement failures are caught inside EOI and come back as `0` or `null`.

An audit is written through `executePreparedUpdate`, on whatever connection is bound at that moment.

- Inside a transaction, that is the transaction's connection. So a failing audit insert rolls back and releases the caller's whole transaction, and `_insert` still returns the generated key (`Transactions.InsertAuditFailureInTransaction`).
- Outside a transaction, the first audit reuses the connection of the insert or update, and the audit's soft close releases it. Each further audit of an update acquires a connection of its own (`Transactions.UpdateOutsideTransaction`).

## Model

| member | source | states |
|---|---|---|
| ColumnDef.DBMapField.GetColumnDefinition | src/net/ehicks/eoi/DBMapField.java:37-74 | returns the definition text of the field as it was before the call, and leaves its three sizes defaulted (length, precision and scale set only where they were 0 and the type uses them) |
| ColumnDef.ColumnDefinitionStable | src/net/ehicks/eoi/DBMapField.java:45-58 | two calls on the same field return the same text, and afterwards the record is the defaulted one with no other field changed |
| ColumnDef.DeclaredDefinitionVerbatim | src/net/ehicks/eoi/DBMapField.java:39-40 | a non-empty declared definition is the result as it is, and nothing is defaulted |
| ColumnDef.SynthesisedDefinition | src/net/ehicks/eoi/DBMapField.java:42-73 | without a declared definition, the text parses back as the defaulted type clause, with PRIMARY KEY exactly when the field is a key and NOT NULL exactly when it is not nullable |
| ColumnDef.RenderRoundTrip | src/net/ehicks/eoi/DBMapField.java:68-73 | every rendered definition (type clause, then PRIMARY KEY, then NOT NULL) parses back as exactly its type and its two flags |
| ColumnDef.TypeClauseRoundTrip | src/net/ehicks/eoi/DBMapField.java:43-66 | every type clause parses back as the type it renders |
| ColumnDef.StringColumn | src/net/ehicks/eoi/DBMapField.java:43-48 | a STRING column of length 0 becomes length 255 and `varchar2(255)`; any other length is kept and named |
| ColumnDef.DecimalColumn | src/net/ehicks/eoi/DBMapField.java:53-60 | a DECIMAL column defaults precision 0 to 24 and scale 0 to 2, each on its own, and names both |
| ColumnDef.FixedColumnTypes | src/net/ehicks/eoi/DBMapField.java:49-66 | INTEGER, LONG, TIMESTAMP, BLOB and BOOLEAN give `integer`, `bigint`, `timestamp`, `blob` and `boolean`; any other type name gives an empty clause and defaults nothing |
| ColumnDef.DefaultNumbers | src/net/ehicks/eoi/DBMapField.java:46-58 | the defaults 255, 24 and 2 are written as those digits |
| ColumnDef.DefinitionIdempotent | src/net/ehicks/eoi/DBMapField.java:45-58 | defaulting twice is defaulting once, and a defaulted field gives the same definition |
| ColumnDef.DefaultingTouchesOnlySizes | src/net/ehicks/eoi/DBMapField.java:37-74 | defaulting changes no field other than length, precision and scale |
| ColumnDef.TypeNamesDistinct | src/net/ehicks/eoi/DBMapField.java:10-16 | the seven type names are pairwise distinct, so at most one type clause applies |
| ColumnDef.OneTypeName | src/net/ehicks/eoi/DBMapField.java:43-66 | a type name equal to one constant differs from the other six |
| ColumnDef.DBMapField.ToStringParts | src/net/ehicks/eoi/DBMapField.java:32-35 | `toString` is the class name, then `:`, then the field name, and with a colon-free class name its first colon ends the class name |
| ColumnDef.QualifiedNameInjective | src/net/ehicks/eoi/DBMapField.java:32-35 | `className:fieldName` with a colon-free class name determines both parts |
| ColumnDef.ColonPosition | src/net/ehicks/eoi/DBMapField.java:32-35 | in `className:fieldName` the first colon ends the class name |
| Numerals.NatToStringDigits | src/net/ehicks/eoi/DBMapField.java:47 | a non-negative number is written as a non-empty run of digits without a leading zero |
| Numerals.ParseNatToString | src/net/ehicks/eoi/DBMapField.java:47 | the digits of a non-negative number parse back as that number |
| Numerals.IntToStringRoundTrip | src/net/ehicks/eoi/DBMapField.java:47 | the decimal text of an integer parses back as that integer |
| Numerals.IntToStringInjective | src/main/java/net/ehicks/eoi/EOI.java:344 | distinct integers have distinct decimal texts |
| Numerals.IntToStringDigits | src/net/ehicks/eoi/DBMapField.java:59 | the text is digits, led by a minus sign exactly for negative numbers |
| Numerals.IntToStringCharacters | src/net/ehicks/eoi/DBMapField.java:59 | the text has only digits and the minus sign, so it never holds the comma that separates precision from scale |
| Parameters.SetPreparedStatementParameter | src/main/java/net/ehicks/eoi/EOI.java:524-534 | a value of a supported class sets exactly its own index with the setter of its class; any other value sets nothing |
| Parameters.BoundRoundTrip | src/main/java/net/ehicks/eoi/EOI.java:524-534 | a value is bound exactly when its class is supported, and the bound parameter reads back as the value |
| Parameters.BoundCoversSetters | src/main/java/net/ehicks/eoi/EOI.java:524-534 | every setter, `setNull(Types.NULL)` included, is reached by the value it reads back as |
| Parameters.BoundInjective | src/main/java/net/ehicks/eoi/EOI.java:524-534 | distinct supported values never get the same binding |
| Parameters.BindArguments | src/main/java/net/ehicks/eoi/EOI.java:184-186 | binds the arguments at indices 1, 2, … as `Bindings(args, 1)` says |
| Parameters.BindingsAt | src/main/java/net/ehicks/eoi/EOI.java:184-186 | index i is set exactly when it numbers a supported argument, and holds that argument's binding |
| Parameters.BindingsReadBack | src/main/java/net/ehicks/eoi/EOI.java:184-186 | with every argument supported, each index from `start` reads back as its argument, in order |
| Parameters.BindingsSnoc | src/main/java/net/ehicks/eoi/EOI.java:184-186 | binding one more argument sets only its own index |
| Parameters.BindInsertParameters | src/main/java/net/ehicks/eoi/EOI.java:251-265 | binds the insert values, auto-increment fields skipped and nulls bound null, at indices 1, 2, … |
| Parameters.InsertArgsCount | src/main/java/net/ehicks/eoi/EOI.java:251-265 | one value per non-auto-increment field, and none from an auto-increment field |
| Parameters.InsertArgsAppend | src/main/java/net/ehicks/eoi/EOI.java:251-265 | the insert values of two runs of fields are those of the first run, then those of the second (field order is kept) |
| Parameters.InsertArgsSingle | src/main/java/net/ehicks/eoi/EOI.java:253-264 | one field contributes its value, null included, unless it is auto-incremented |
| Parameters.InsertArgsNoAuto | src/main/java/net/ehicks/eoi/EOI.java:251-265 | without auto-increment fields every value is bound, in order |
| Parameters.InsertArgsSupported | src/main/java/net/ehicks/eoi/EOI.java:251-265 | the insert values are drawn from the field values |
| Parameters.InsertParametersReadBack | src/main/java/net/ehicks/eoi/EOI.java:251-265 | there are as many bound parameters as non-auto-increment fields, and each reads back as its value |
| Audit.AuditStatement | src/main/java/net/ehicks/eoi/EOI.java:337-348 | the audit insert, when written, has six arguments |
| Audit.AuditGuard | src/main/java/net/ehicks/eoi/EOI.java:337 | nothing is written exactly when the audited class is `Audit` |
| Audit.ObjectKeyRoundTrip | src/main/java/net/ehicks/eoi/EOI.java:339-344 | without an object and with a non-zero id, the key parses back as the class name and the id |
| Audit.ObjectKeyInjective | src/main/java/net/ehicks/eoi/EOI.java:339-344 | such keys are equal only for equal class names and ids |
| Audit.ObjectKeyEmpty | src/main/java/net/ehicks/eoi/EOI.java:339-344 | the key is empty exactly when the object's text is empty, or there is no object and the id is 0 |
| Audit.AuditParameters | src/main/java/net/ehicks/eoi/EOI.java:346-348 | indices 1 to 6 are bound to the key, the time, the event type, the field name and the two values, each of the last three bound null exactly when absent and as its text when present |
| Audit.RenderDeltaRoundTrip | src/main/java/net/ehicks/eoi/EOI.java:394-395 | a delta reads back unless it is the text `<NULL>`, and renders as `<NULL>` exactly for null or that text |
| Audit.RenderDeltaAmbiguous | src/main/java/net/ehicks/eoi/EOI.java:394-395 | a null value and the text `<NULL>` leave the same audit row |
| Audit.UpdateAuditShape | src/main/java/net/ehicks/eoi/EOI.java:392-397 | an update audit is keyed by the object's text and binds the field name and both rendered values as text, never null |
| Audit.InsertAuditShape | src/main/java/net/ehicks/eoi/EOI.java:330-333 | an insert audit is keyed `className:key`, or empty for key 0, with null field name and values |
| Connections.CountPositive | src/main/java/net/ehicks/eoi/EOI.java:228-239 | the success count is at most the number of objects |
| Transactions.GetConnectionSpec | src/main/java/net/ehicks/eoi/EOI.java:62-85 | a bound connection is returned unchanged; a fresh one is bound only when none is bound and the pool answers; autoCommit is switched off only on that fresh acquisition; a failing pool gives null and changes nothing |
| Transactions.CloseConnectionSpec | src/main/java/net/ehicks/eoi/EOI.java:127-146 | a soft close keeps a connection with autoCommit off; any other close restores autoCommit, closes and unbinds |
| Transactions.SoftCloseAtRest | src/main/java/net/ehicks/eoi/EOI.java:134-135 | after a soft close any bound connection has autoCommit off |
| Transactions.CommitSpec | src/main/java/net/ehicks/eoi/EOI.java:92-107 | nothing happens without a connection; a successful commit ends with none bound; a failing commit leaves everything as it was |
| Transactions.RollbackSpec | src/main/java/net/ehicks/eoi/EOI.java:109-125 | nothing happens without a connection; otherwise it ends with none bound unless the database rollback throws |
| Transactions.RollbackReachesDatabase | src/main/java/net/ehicks/eoi/EOI.java:116-118 | the database sees a rollback exactly when the bound connection has autoCommit off and the rollback succeeds, followed by the release |
| Transactions.StartTransactionSpec | src/main/java/net/ehicks/eoi/EOI.java:87-90 | an open transaction is kept; otherwise one is opened whenever the pool answers |
| Transactions.StatementInTransaction | src/main/java/net/ehicks/eoi/EOI.java:179-201 | inside a transaction a statement runs on its connection and keeps it; a failing one rolls back and releases the transaction |
| Transactions.StatementOutsideTransaction | src/main/java/net/ehicks/eoi/EOI.java:179-201 | outside a transaction a statement acquires, runs and releases its own connection, and no rollback reaches the database |
| Transactions.InsertOutsideTransaction | src/main/java/net/ehicks/eoi/EOI.java:242-290 | outside a transaction the insert and its audit share one connection, which the audit's own close releases |
| Transactions.InsertInTransaction | src/main/java/net/ehicks/eoi/EOI.java:242-290 | inside a transaction a successful insert and its audit run on the transaction's connection, which stays bound, and the key is returned |
| Transactions.InsertAuditFailureInTransaction | src/main/java/net/ehicks/eoi/EOI.java:273-287 | inside a transaction a failing audit rolls back and releases the transaction, and the insert still returns the key |
| Transactions.InsertResult | src/main/java/net/ehicks/eoi/EOI.java:242-290 | a non-zero insert result is the generated key of a statement that ran on a connection; when a connection runs the statement and a key row comes back, the result is that key whatever the audit answers |
| Transactions.InsertAllResults | src/main/java/net/ehicks/eoi/EOI.java:228-237 | `_insertFromList` gives one result per object, each that object's insert after the earlier ones |
| Transactions.InsertAllLength | src/main/java/net/ehicks/eoi/EOI.java:228-237 | one result per object |
| Transactions.CountPositiveSplit | src/main/java/net/ehicks/eoi/EOI.java:228-239 | the success count and the count of results at most 0 add up to the number of objects |
| Transactions.UpdateResult | src/main/java/net/ehicks/eoi/EOI.java:375-415 | without a plan nothing happens; the result is 0 or 1, and 1 exactly when a connection ran the statement and it changed one row |
| Transactions.AuditUpdatesInTransaction | src/main/java/net/ehicks/eoi/EOI.java:392-397 | inside a transaction, successful audits run on the transaction's connection, one per changed field in order, and leave it bound |
| Transactions.UpdateInTransaction | src/main/java/net/ehicks/eoi/EOI.java:375-415 | inside a transaction an update that changes one row runs its statement, every audit and the cache store on the transaction's connection, which stays bound, and returns 1 |
| Transactions.AuditUpdatesAppend | src/main/java/net/ehicks/eoi/EOI.java:392-397 | auditing one run of changed fields and then another is the same as auditing both runs together, in order |
| Transactions.AuditUpdatesOutsideTransaction | src/main/java/net/ehicks/eoi/EOI.java:392-397 | with no connection bound, each audit acquires, uses and releases a fresh connection, whatever it answers |
| Transactions.UpdateAuditsReleaseFirst | src/main/java/net/ehicks/eoi/EOI.java:392-397 | when the update's own connection has autoCommit on, the first audit runs on it and releases it, and each later audit uses a fresh connection |
| Transactions.UpdateOutsideTransaction | src/main/java/net/ehicks/eoi/EOI.java:375-415 | outside a transaction, an update that changes one row runs on a fresh connection; the first audit reuses that connection and releases it; later audits each get their own connection; the cache store comes last; the result is 1 |
| Transactions.UpdateOutsideTransactionNoAudit | src/main/java/net/ehicks/eoi/EOI.java:375-415 | outside a transaction, an update that changes one row but has no field to audit stores into the cache, then its own soft close releases its connection |
| Transactions.AuditUpdatesNoCache | src/main/java/net/ehicks/eoi/EOI.java:392-397 | the audits of an update only add events and never touch the cache |
| Transactions.CreateAuditExtends | src/main/java/net/ehicks/eoi/EOI.java:335-350 | an audit only adds events and never touches the cache |
| Transactions.UpdateCacheStore | src/main/java/net/ehicks/eoi/EOI.java:389-401 | the object cache is written exactly when the update changed one row and the cache is on |
| Transactions.QueryNeverRollsBack | src/main/java/net/ehicks/eoi/EOI.java:445-475 | a query never rolls back, in any state and whatever it answers |
| Transactions.FirstOrNullSpec | src/main/java/net/ehicks/eoi/EOI.java:429-432 | the result is the first element exactly when the list is non-null and non-empty, and null otherwise |
| Transactions.QueryOneResult | src/main/java/net/ehicks/eoi/EOI.java:427-433 | with a connection, the single result is the first row or null for no rows, and null when the query fails |
| Transactions.StartTransactionKeepsInvariant | src/main/java/net/ehicks/eoi/EOI.java:87-90 | `startTransaction` keeps `Valid` and `AtRest` |
| Transactions.CommitKeepsInvariant | src/main/java/net/ehicks/eoi/EOI.java:92-107 | `commit` keeps both invariants, whether or not it succeeds |
| Transactions.RollbackKeepsInvariant | src/main/java/net/ehicks/eoi/EOI.java:109-125 | `rollback` keeps both invariants, whether or not it succeeds |
| Transactions.StatementKeepsInvariant | src/main/java/net/ehicks/eoi/EOI.java:179-201 | `executePreparedUpdate` keeps both invariants |
| Transactions.CreateAuditKeepsInvariant | src/main/java/net/ehicks/eoi/EOI.java:335-350 | `createAudit` keeps both invariants |
| Transactions.InsertKeepsInvariant | src/main/java/net/ehicks/eoi/EOI.java:242-290 | `_insert` keeps both invariants |
| Transactions.InsertAllKeepsInvariant | src/main/java/net/ehicks/eoi/EOI.java:226-240 | `_insertFromList` keeps both invariants |
| Transactions.UpdateKeepsInvariant | src/main/java/net/ehicks/eoi/EOI.java:375-415 | `_update` keeps both invariants |
| Transactions.QueryKeepsInvariant | src/main/java/net/ehicks/eoi/EOI.java:427-475 | `executeQuery` and `executeQueryOneResult` keep both invariants |
| Transactions.GetConnectionValid | src/main/java/net/ehicks/eoi/EOI.java:62-85 | acquiring keeps `Valid`, and the connection returned is the bound one |
| Transactions.CloseValid | src/main/java/net/ehicks/eoi/EOI.java:127-146 | closing keeps `Valid`: the closed connection is unbound in the same step |
| Transactions.RollbackValid | src/main/java/net/ehicks/eoi/EOI.java:109-125 | rolling back keeps `Valid` |
| Transactions.StatementValid | src/main/java/net/ehicks/eoi/EOI.java:179-201 | a statement keeps `Valid` |
| Transactions.AuditUpdatesValid | src/main/java/net/ehicks/eoi/EOI.java:392-397 | the audits of an update keep `Valid` |
| Eoi.ExecutionContext.constructor | src/main/java/net/ehicks/eoi/EOI.java:19-23 | a fresh context has nothing bound and has seen nothing, and satisfies both invariants |
| Eoi.ExecutionContext.GetConnection | src/main/java/net/ehicks/eoi/EOI.java:62-85 | refines `Connections.GetConnection` |
| Eoi.ExecutionContext.StartTransaction | src/main/java/net/ehicks/eoi/EOI.java:87-90 | refines `Connections.StartTransaction` |
| Eoi.ExecutionContext.CloseConnection | src/main/java/net/ehicks/eoi/EOI.java:127-146 | refines `Connections.CloseConnection` |
| Eoi.ExecutionContext.Commit | src/main/java/net/ehicks/eoi/EOI.java:92-107 | refines `Connections.Commit` |
| Eoi.ExecutionContext.Rollback | src/main/java/net/ehicks/eoi/EOI.java:109-125 | refines `Connections.Rollback` |
| Eoi.ExecutionContext.ExecutePreparedUpdate | src/main/java/net/ehicks/eoi/EOI.java:179-201 | refines `Connections.ExecutePreparedUpdate`, binding the arguments through the binder |
| Eoi.ExecutionContext.CreateAudit | src/main/java/net/ehicks/eoi/EOI.java:335-350 | refines `Connections.CreateAudit`, building the key and the six arguments as EOI does |
| Eoi.ExecutionContext.Insert | src/main/java/net/ehicks/eoi/EOI.java:242-290 | refines `Connections.Insert`, binding through the insert parameter loop |
| Eoi.ExecutionContext.InsertFromList | src/main/java/net/ehicks/eoi/EOI.java:226-240 | leaves the state of `Connections.InsertAll`, returns the number of positive results, and success plus fail is the number of objects |
| Eoi.ExecutionContext.AuditUpdates | src/main/java/net/ehicks/eoi/EOI.java:390-397 | refines `Connections.AuditUpdates`: one audit per changed field, in order, with `<NULL>` for null |
| Eoi.ExecutionContext.Update | src/main/java/net/ehicks/eoi/EOI.java:375-415 | refines `Connections.Update` |
| Eoi.ExecutionContext.ExecuteQuery | src/main/java/net/ehicks/eoi/EOI.java:445-475 | refines `Connections.ExecuteQuery` |
| Eoi.ExecutionContext.ExecuteQueryOneResult | src/main/java/net/ehicks/eoi/EOI.java:427-433 | refines `Connections.ExecuteQueryOneResult` |

## Left out

- `init` and `destroy`: the H2 server, the Hikari pool and driver selection are configuration and I/O. The pool is modelled only as whether it hands out a connection.
- JDBC execution: each statement's outcome is given as an answer (an update count or an `SQLException`, a generated-keys row or none, parsed rows or an exception). The same holds for commit and rollback.
- The pool, commit and rollback behave the same way for a whole context (`Database`). A pool that fails only sometimes is not modelled.
- Exceptions from `setAutoCommit`, `getAutoCommit` and `close` are not modelled.
- `ThreadLocal` and concurrency: one execution context is modelled.
- Connections are values. Aliasing between a connection a caller holds and the bound one is not modelled.
- Reflection (`getGetter`, `getSetter`, `getValue`, `Common.capFirstLetter`) is not modelled. An insert receives its field values as a sequence parallel to the fields. A missing getter, which makes `getValue` fail, is not modelled.
- `SQLGenerator`, `DBMap`, `ResultSetParser`, `EOICache` and `PSIngredients` are opaque inputs:
  - the insert SQL and update plan are given;
  - parsed rows are given;
  - a cache store is an event carrying the object's text;
  - `toString()` of an audited object is given as text.
- The audit's `new Date()` is a parameter `now`. `_update` calls `new Date()` once per audit; the model gives all audits of one update the same `now`.
- Not part of this model: the `List` dispatch of `insert(Object)` and `update(Object)`, `batchInsert`, `executeUpdate(String)`, `execute`, `executeQueryWithoutPS`, `executeDelete`, `isTableExists`, `_updateFromList`, `getCPInfo`, the `bypassCache` flag and the slow-query timing log.
- Eoi.ExecutionContext.InsertFromList: the `int` counters are unbounded, so 32-bit overflow after 2^31 objects is not modelled, and the log line is left out.
- ColumnDef.DBMapField.GetColumnDefinition: its `ensures` names only the three sizes. The other fields are left unchanged by its `modifies` frame, and `ColumnDef.ColumnDefinitionStable` states the whole record afterwards.
- ColumnDef.DBMapField.ToString: it carries no `ensures`. Its shape `className:fieldName` is stated by the lemma `ColumnDef.DBMapField.ToStringParts`.
- The sizes of a field are unbounded integers rather than Java `int`s.
- `BigDecimal` is an unscaled integer and a scale. `Date` is its epoch milliseconds.
