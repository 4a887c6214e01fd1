/**
 * EOI's static connection state and its statement methods, imperatively: the thread-local
 * connection is the field `bound`, and every call the database sees is appended to
 * `events`. Each method is specified by the step function of Connections that it refines;
 * what those step functions guarantee is proved in Transactions.
 */
module Eoi {
  import opened Wrappers
  import opened ColumnDef
  import opened Parameters
  import opened Audit
  import opened Connections
  import Transactions

  class ExecutionContext {
    /** How the database answers this context. */
    const db: Database
    /** EOI's `enableCache` switch. */
    const cacheEnabled: bool
    /** The connection bound to the current thread, `conn` in EOI. */
    var bound: Option<Connection>
    /** The identity the pool gives the next connection it hands out. */
    var nextId: nat
    /** Everything the database and the cache have seen so far. */
    var events: seq<Event>

    function State(): Ctx
      reads this
    {
      Ctx(db, bound, nextId, events)
    }

    /** A context with nothing bound and nothing seen, as EOI is after `init`. */
    constructor (db: Database, cacheEnabled: bool)
      ensures State() == Ctx(db, None, 0, []) && this.cacheEnabled == cacheEnabled
      ensures Transactions.Invariant(State())
    {
      this.db := db;
      this.cacheEnabled := cacheEnabled;
      bound := None;
      nextId := 0;
      events := [];
    }

    /** `getConnection(autoCommit)`. */
    method GetConnection(autoCommit: bool) returns (connection: Option<Connection>)
      modifies this
      ensures (State(), connection) == Connections.GetConnection(old(State()), autoCommit)
    {
      connection := bound;
      if connection.None? {
        if !db.poolUp {
          // the pool throws; the exception is logged and null returned
          return None;
        }
        var id := nextId;
        nextId := id + 1;
        events := events + [Acquired(id)];
        connection := Some(Connection(id, true));
        bound := connection;
        if !autoCommit {
          events := events + [AutoCommitSet(id, false)];
          connection := Some(Connection(id, false));
          bound := connection;
        }
      }
    }

    /** `startTransaction`. */
    method StartTransaction()
      modifies this
      ensures State() == Connections.StartTransaction(old(State()))
    {
      var _ := GetConnection(false);
    }

    /** `closeConnection(hardClose)`. */
    method CloseConnection(hardClose: bool)
      modifies this
      ensures State() == Connections.CloseConnection(old(State()), hardClose)
    {
      if bound.Some? {
        var k := bound.value;
        if !k.autoCommit && !hardClose {
          return;
        }
        events := events + [AutoCommitSet(k.id, true)];
        events := events + [Closed(k.id)];
        bound := None;
      }
    }

    /** `commit`. */
    method Commit()
      modifies this
      ensures State() == Connections.Commit(old(State()))
    {
      if bound.Some? {
        if !db.commitOk {
          // the commit throws; the exception is logged
          return;
        }
        events := events + [Committed(bound.value.id)];
        CloseConnection(true);
      }
    }

    /** `rollback`. */
    method Rollback()
      modifies this
      ensures State() == Connections.Rollback(old(State()))
    {
      if bound.Some? {
        var k := bound.value;
        if !k.autoCommit {
          if !db.rollbackOk {
            // the rollback throws; the exception is logged
            return;
          }
          events := events + [RolledBack(k.id)];
        }
        CloseConnection(true);
      }
    }

    /** `executePreparedUpdate(queryString, args)`. */
    method ExecutePreparedUpdate(sql: string, args: seq<Value>, answer: Answer) returns (count: Int32)
      modifies this
      ensures (State(), count) == Connections.ExecutePreparedUpdate(old(State()), sql, args, answer)
    {
      var connection := GetConnection(true);
      if connection.None? {
        // preparing on a null connection throws
        Rollback();
        CloseConnection(false);
        return 0;
      }
      var ps := new PreparedStatement(sql);
      BindArguments(ps, args);
      assert ps.params == Bindings(args, 1);
      events := events + [Executed(connection.value.id, sql, ps.params)];
      if answer.SqlError? {
        Rollback();
        count := 0;
      } else {
        count := answer.count;
      }
      CloseConnection(false);
    }

    /** `createAudit(eventType, dbMap, objectId, object, fieldName, oldValue, newValue)`. */
    method CreateAudit(r: AuditRequest, now: Int64, answer: Answer)
      modifies this
      ensures State() == Connections.CreateAudit(old(State()), r, now, answer)
    {
      if r.className != AUDIT_CLASS_NAME {
        var objectKey := "";
        if r.objectText.Some? {
          objectKey := r.objectText.value;
        } else if r.objectId != 0 {
          objectKey := ObjectKey(r.className, r.objectId, None);
        }
        var args := [StrVal(objectKey), DateVal(now), StrVal(r.eventType),
                     TextArg(r.fieldName), TextArg(r.oldValue), TextArg(r.newValue)];
        assert args == AuditArgs(r, now);
        var _ := ExecutePreparedUpdate(AUDIT_SQL, args, answer);
      }
    }

    /** `_insert(object)`. */
    method Insert(r: InsertRequest) returns (key: Int64)
      requires WellFormed(r)
      modifies this
      ensures (State(), key) == Connections.Insert(old(State()), r)
    {
      var connection := GetConnection(true);
      if connection.None? {
        Rollback();
        CloseConnection(false);
        return 0;
      }
      var ps := new PreparedStatement(r.sql);
      BindInsertParameters(ps, r.fields, r.values);
      assert ps.params == Bindings(InsertArgs(r.fields, r.values), 1);
      events := events + [Executed(connection.value.id, r.sql, ps.params)];
      key := 0;
      if r.answer.execution.SqlError? {
        Rollback();
      } else if r.answer.generatedKey.Some? {
        key := r.answer.generatedKey.value;
        CreateAudit(InsertAudit(r.className, key), r.now, r.answer.audit);
      }
      CloseConnection(false);
    }

    /** `_insertFromList(objects)`: the number of inserts that returned a positive key, and the number that did not. */
    method InsertFromList(rs: seq<InsertRequest>) returns (success: nat, fail: nat)
      requires forall k :: 0 <= k < |rs| ==> WellFormed(rs[k])
      modifies this
      ensures State() == InsertAll(old(State()), rs).0
      ensures success == CountPositive(InsertAll(old(State()), rs).1)
      ensures success + fail == |rs|
    {
      ghost var s0 := State();
      success, fail := 0, 0;
      ghost var keys: seq<Int64> := [];
      var i := 0;
      while i < |rs|
        invariant 0 <= i <= |rs|
        invariant (State(), keys) == InsertAll(s0, rs[..i])
        invariant success == CountPositive(keys) && success + fail == i
        invariant |keys| == i
      {
        var result := Insert(rs[i]);
        assert rs[..i + 1][..i] == rs[..i];
        assert (keys + [result])[..i] == keys;
        keys := keys + [result];
        if result > 0 {
          success := success + 1;
        } else {
          fail := fail + 1;
        }
        i := i + 1;
      }
      assert rs[..i] == rs;
    }

    /** The audit loop of `_update`: one audit per changed field, in order. */
    method AuditUpdates(className: string, objectText: string, fields: seq<UpdatedField>,
                        answers: seq<Answer>, now: Int64)
      requires |answers| == |fields|
      modifies this
      ensures State() == Connections.AuditUpdates(old(State()), className, objectText, fields, answers, now)
    {
      ghost var s0 := State();
      var i := 0;
      while i < |fields|
        invariant 0 <= i <= |fields|
        invariant State() == Connections.AuditUpdates(s0, className, objectText, fields[..i], answers[..i], now)
      {
        var f := fields[i];
        var oldValue := if f.oldValue.None? then NULL_TEXT else f.oldValue.value;
        var newValue := if f.newValue.None? then NULL_TEXT else f.newValue.value;
        var r := AuditRequest(className, UPDATE_EVENT, 0, Some(objectText), Some(f.fieldName),
                              Some(oldValue), Some(newValue));
        assert r == UpdateAudit(className, objectText, f);
        CreateAudit(r, now, answers[i]);
        assert fields[..i + 1][..i] == fields[..i] && answers[..i + 1][..i] == answers[..i];
        i := i + 1;
      }
      assert fields[..i] == fields && answers[..i] == answers;
    }

    /** `_update(object)`. */
    method Update(plan: Option<UpdatePlan>, className: string, objectText: string, answer: Answer,
                  auditAnswers: seq<Answer>, now: Int64) returns (result: Int32)
      requires plan.Some? ==> |auditAnswers| == |plan.value.updatedFields|
      modifies this
      ensures (State(), result)
              == Connections.Update(old(State()), plan, className, objectText, answer, auditAnswers, now, cacheEnabled)
    {
      if plan.None? {
        return 0;
      }
      var p := plan.value;
      var connection := GetConnection(true);
      if connection.None? {
        Rollback();
        CloseConnection(false);
        return 0;
      }
      var ps := new PreparedStatement(p.sql);
      BindArguments(ps, p.args);
      assert ps.params == Bindings(p.args, 1);
      events := events + [Executed(connection.value.id, p.sql, ps.params)];
      result := 0;
      if answer.SqlError? {
        Rollback();
      } else if answer.count == 1 {
        AuditUpdates(className, objectText, p.updatedFields, auditAnswers, now);
        if cacheEnabled {
          events := events + [CacheStored(objectText)];
        }
        result := 1;
      }
      CloseConnection(false);
    }

    /** `executeQuery(queryString, args)`: the parsed rows, or null. */
    method ExecuteQuery<T>(sql: string, args: seq<Value>, answer: QueryAnswer<T>) returns (results: Option<seq<T>>)
      modifies this
      ensures (State(), results) == Connections.ExecuteQuery(old(State()), sql, args, answer)
    {
      var connection := GetConnection(true);
      results := None;
      if connection.Some? {
        var ps := new PreparedStatement(sql);
        BindArguments(ps, args);
        assert ps.params == Bindings(args, 1);
        events := events + [Executed(connection.value.id, sql, ps.params)];
        if answer.Rows? {
          results := Some(answer.rows);
        }
      }
      CloseConnection(false);
    }

    /** `executeQueryOneResult(queryString, args)`: the first row, or null. */
    method ExecuteQueryOneResult<T>(sql: string, args: seq<Value>, answer: QueryAnswer<T>) returns (result: Option<T>)
      modifies this
      ensures (State(), result) == Connections.ExecuteQueryOneResult(old(State()), sql, args, answer)
    {
      var results := ExecuteQuery(sql, args, answer);
      result := None;
      if results.Some? && |results.value| > 0 {
        result := Some(results.value[0]);
      }
    }
  }
}
