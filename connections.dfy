/**
 * The connection and transaction discipline of one EOI execution context (the thread-local
 * `conn` of EOI.java), as functions from the context before an operation to the context
 * after it. The database is abstracted to its answers: whether the pool hands out
 * connections, whether commit and rollback succeed, and what each statement returns.
 * Every call the database sees is recorded as an event.
 */
module Connections {
  import opened Wrappers
  import opened ColumnDef
  import opened Parameters
  import opened Audit

  /** A pooled JDBC connection: its identity and its autoCommit flag. */
  datatype Connection = Connection(id: nat, autoCommit: bool)

  /** What the database sees, in order. */
  datatype Event =
    | Acquired(id: nat)
    | AutoCommitSet(id: nat, on: bool)
    | Executed(id: nat, sql: string, params: map<int, Param>)
    | Committed(id: nat)
    | RolledBack(id: nat)
    | Closed(id: nat)
    | CacheStored(objectText: string)

  /** How the database behaves for this context. */
  datatype Database = Database(poolUp: bool, commitOk: bool, rollbackOk: bool)

  /** One execution context: the connection bound to it, if any, and the events so far. */
  datatype Ctx = Ctx(db: Database, bound: Option<Connection>, nextId: nat, events: seq<Event>)

  /** What `executeUpdate` answers: an update count, or an SQLException. */
  datatype Answer = Updated(count: Int32) | SqlError

  /** What the database answers to one insert: the statement, the generated-keys row, and the audit insert. */
  datatype InsertAnswer = InsertAnswer(execution: Answer, generatedKey: Option<Int64>, audit: Answer)

  /** One object to insert: the statement SQLGenerator built, its class and fields, the getters' values, and the answers. */
  datatype InsertRequest = InsertRequest(
    sql: string,
    className: string,
    fields: seq<FieldMeta>,
    values: seq<Value>,
    answer: InsertAnswer,
    now: Int64)

  /** The statement SQLGenerator built for an update: its SQL, its arguments, and the fields it changes. */
  datatype UpdatePlan = UpdatePlan(sql: string, args: seq<Value>, updatedFields: seq<UpdatedField>)

  /** What a query answers: the parsed rows, or an exception. */
  datatype QueryAnswer<T> = Rows(rows: seq<T>) | QueryError

  predicate WellFormed(r: InsertRequest) {
    |r.fields| == |r.values|
  }

  function Log(c: Ctx, e: Event): Ctx {
    c.(events := c.events + [e])
  }

  // ---- getConnection, startTransaction, closeConnection, commit, rollback ----

  /**
   * `getConnection(autoCommit)`: the bound connection when there is one; otherwise a fresh
   * connection from the pool, bound, with autoCommit switched off when asked. `None` is
   * the null returned when the pool fails.
   */
  function GetConnection(c: Ctx, autoCommit: bool): (Ctx, Option<Connection>) {
    if c.bound.Some? then (c, c.bound)
    else if !c.db.poolUp then (c, None)
    else
      var id := c.nextId;
      var acquired := Log(c.(nextId := id + 1), Acquired(id));
      if autoCommit then (acquired.(bound := Some(Connection(id, true))), Some(Connection(id, true)))
      else (Log(acquired, AutoCommitSet(id, false)).(bound := Some(Connection(id, false))), Some(Connection(id, false)))
  }

  function StartTransaction(c: Ctx): Ctx {
    GetConnection(c, false).0
  }

  /** `closeConnection(hardClose)`: a connection inside a transaction is kept unless the close is hard. */
  function CloseConnection(c: Ctx, hardClose: bool): Ctx {
    match c.bound
    case None => c
    case Some(k) =>
      if !k.autoCommit && !hardClose then c
      else Log(Log(c, AutoCommitSet(k.id, true)), Closed(k.id)).(bound := None)
  }

  /** `commit`: commit and release; a commit that throws leaves everything as it was. */
  function Commit(c: Ctx): Ctx {
    match c.bound
    case None => c
    case Some(k) =>
      if !c.db.commitOk then c
      else CloseConnection(Log(c, Committed(k.id)), true)
  }

  /** `rollback`: a database rollback only when autoCommit is off, then release; a rollback that throws leaves everything as it was. */
  function Rollback(c: Ctx): Ctx {
    match c.bound
    case None => c
    case Some(k) =>
      if k.autoCommit then CloseConnection(c, true)
      else if !c.db.rollbackOk then c
      else CloseConnection(Log(c, RolledBack(k.id)), true)
  }

  // ---- statements ----

  /**
   * `executePreparedUpdate`: the update count, or 0 after a rollback when the statement
   * fails; the connection is closed softly afterwards. Without a connection the statement
   * throws before reaching the database.
   */
  function ExecutePreparedUpdate(c: Ctx, sql: string, args: seq<Value>, answer: Answer): (Ctx, Int32) {
    var (c1, connection) := GetConnection(c, true);
    if connection.None? then (CloseConnection(Rollback(c1), false), 0)
    else
      var c2 := Log(c1, Executed(connection.value.id, sql, Bindings(args, 1)));
      match answer
      case Updated(n) => (CloseConnection(c2, false), n)
      case SqlError => (CloseConnection(Rollback(c2), false), 0)
  }

  /** `createAudit`: the audit insert, unless the audited class is the audit class. */
  function CreateAudit(c: Ctx, r: AuditRequest, now: Int64, answer: Answer): Ctx {
    match AuditStatement(r, now)
    case None => c
    case Some(args) => ExecutePreparedUpdate(c, AUDIT_SQL, args, answer).0
  }

  /**
   * `_insert`: the generated key after an audit of the insert, or 0 when there is no
   * generated-keys row or the statement fails (after a rollback).
   */
  function Insert(c: Ctx, r: InsertRequest): (Ctx, Int64)
    requires WellFormed(r)
  {
    var (c1, connection) := GetConnection(c, true);
    if connection.None? then (CloseConnection(Rollback(c1), false), 0)
    else
      var c2 := Log(c1, Executed(connection.value.id, r.sql, Bindings(InsertArgs(r.fields, r.values), 1)));
      if r.answer.execution.SqlError? then (CloseConnection(Rollback(c2), false), 0)
      else if r.answer.generatedKey.None? then (CloseConnection(c2, false), 0)
      else
        var key := r.answer.generatedKey.value;
        var c3 := CreateAudit(c2, InsertAudit(r.className, key), r.now, r.answer.audit);
        (CloseConnection(c3, false), key)
  }

  /** `_insertFromList`: each object inserted in turn; the keys, one per object. */
  function InsertAll(c: Ctx, rs: seq<InsertRequest>): (Ctx, seq<Int64>)
    requires forall k :: 0 <= k < |rs| ==> WellFormed(rs[k])
    decreases |rs|
  {
    if rs == [] then (c, [])
    else
      var (c1, keys) := InsertAll(c, rs[..|rs| - 1]);
      var (c2, key) := Insert(c1, rs[|rs| - 1]);
      (c2, keys + [key])
  }

  /** How many inserts succeeded: those whose result is positive. */
  function CountPositive(keys: seq<Int64>): (n: nat)
    ensures n <= |keys|
    decreases |keys|
  {
    if keys == [] then 0
    else CountPositive(keys[..|keys| - 1]) + (if keys[|keys| - 1] > 0 then 1 else 0)
  }

  /** The audits `_update` writes, one per changed field, each with its own answer. */
  function AuditUpdates(c: Ctx, className: string, objectText: string, fields: seq<UpdatedField>,
                        answers: seq<Answer>, now: Int64): Ctx
    requires |answers| == |fields|
    decreases |fields|
  {
    if fields == [] then c
    else
      var last := |fields| - 1;
      var c1 := AuditUpdates(c, className, objectText, fields[..last], answers[..last], now);
      CreateAudit(c1, UpdateAudit(className, objectText, fields[last]), now, answers[last])
  }

  /**
   * `_update`: 0 without a plan or a connection; otherwise 1 when exactly one row changed,
   * after an audit per changed field and, with the cache on, a cache store; 0 for any other
   * count, and 0 after a rollback when the statement fails.
   */
  function Update(c: Ctx, plan: Option<UpdatePlan>, className: string, objectText: string,
                  answer: Answer, auditAnswers: seq<Answer>, now: Int64, cacheEnabled: bool): (Ctx, Int32)
    requires plan.Some? ==> |auditAnswers| == |plan.value.updatedFields|
  {
    if plan.None? then (c, 0)
    else
      var p := plan.value;
      var (c1, connection) := GetConnection(c, true);
      if connection.None? then (CloseConnection(Rollback(c1), false), 0)
      else
        var c2 := Log(c1, Executed(connection.value.id, p.sql, Bindings(p.args, 1)));
        match answer
        case SqlError => (CloseConnection(Rollback(c2), false), 0)
        case Updated(n) =>
          if n != 1 then (CloseConnection(c2, false), 0)
          else
            var c3 := AuditUpdates(c2, className, objectText, p.updatedFields, auditAnswers, now);
            var c4 := if cacheEnabled then Log(c3, CacheStored(objectText)) else c3;
            (CloseConnection(c4, false), 1)
  }

  /** `executeQuery`: the parsed rows, or null when the query fails; a query never rolls back. */
  function ExecuteQuery<T>(c: Ctx, sql: string, args: seq<Value>, answer: QueryAnswer<T>): (Ctx, Option<seq<T>>) {
    var (c1, connection) := GetConnection(c, true);
    if connection.None? then (CloseConnection(c1, false), None)
    else
      var c2 := Log(c1, Executed(connection.value.id, sql, Bindings(args, 1)));
      match answer
      case Rows(rows) => (CloseConnection(c2, false), Some(rows))
      case QueryError => (CloseConnection(c2, false), None)
  }

  /** The first row of a result list, or null for a null or empty list. */
  function FirstOrNull<T>(results: Option<seq<T>>): Option<T> {
    if results.Some? && |results.value| > 0 then Some(results.value[0]) else None
  }

  function ExecuteQueryOneResult<T>(c: Ctx, sql: string, args: seq<Value>, answer: QueryAnswer<T>): (Ctx, Option<T>) {
    var (c1, results) := ExecuteQuery(c, sql, args, answer);
    (c1, FirstOrNull(results))
  }
}
