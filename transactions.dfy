/**
 * What the connection discipline of Connections guarantees: which connection a statement
 * runs on, when a connection is released, when the database sees a rollback, and two
 * invariants every public operation keeps.
 */
module Transactions {
  import opened Wrappers
  import opened ColumnDef
  import opened Parameters
  import opened Audit
  import opened Connections

  /** A transaction is open: a connection is bound with autoCommit off. */
  predicate InTransaction(c: Ctx) {
    c.bound.Some? && !c.bound.value.autoCommit
  }

  /** Between public operations, a bound connection always belongs to an open transaction. */
  predicate AtRest(c: Ctx) {
    c.bound.Some? ==> !c.bound.value.autoCommit
  }

  /** The events of `c` are a prefix of those of `d`, and the database is the same. */
  predicate Extends(c: Ctx, d: Ctx) {
    d.db == c.db && c.nextId <= d.nextId && |c.events| <= |d.events| && d.events[..|c.events|] == c.events
  }

  /** The events an operation adds. */
  function Added(c: Ctx, d: Ctx): seq<Event>
    requires |c.events| <= |d.events|
  {
    d.events[|c.events|..]
  }

  predicate Mentions(e: Event, id: nat) {
    !e.CacheStored? && e.id == id
  }

  /** No event concerns a connection after that connection was closed. */
  predicate NoUseAfterClose(es: seq<Event>) {
    forall i, j :: 0 <= i < j < |es| && es[i].Closed? ==> !Mentions(es[j], es[i].id)
  }

  /**
   * Every connection identity is fresh when acquired, the bound connection has not been
   * closed, and no closed connection is used again.
   */
  predicate Valid(c: Ctx) {
    (forall k :: 0 <= k < |c.events| && !c.events[k].CacheStored? ==> c.events[k].id < c.nextId)
    && (c.bound.Some? ==> c.bound.value.id < c.nextId && Closed(c.bound.value.id) !in c.events)
    && NoUseAfterClose(c.events)
  }

  // ---- getConnection ----

  /**
   * A bound connection is returned unchanged; otherwise a fresh one is bound when the pool
   * answers, and autoCommit is switched off only on that fresh acquisition.
   */
  lemma GetConnectionSpec(c: Ctx, autoCommit: bool)
    ensures var (d, k) := GetConnection(c, autoCommit);
            (c.bound.Some? ==> d == c && k == c.bound)
            && (c.bound.None? && !c.db.poolUp ==> d == c && k.None?)
            && (c.bound.None? && c.db.poolUp ==>
                  k == Some(Connection(c.nextId, autoCommit)) && d.bound == k && d.nextId == c.nextId + 1
                  && d.events == c.events + [Acquired(c.nextId)]
                                + (if autoCommit then [] else [AutoCommitSet(c.nextId, false)]))
            && (k.Some? ==> d.bound == k)
  {
  }

  // ---- closeConnection, commit, rollback ----

  /** A soft close keeps a transaction's connection; any other close releases the bound connection. */
  lemma CloseConnectionSpec(c: Ctx, hardClose: bool)
    ensures InTransaction(c) && !hardClose ==> CloseConnection(c, hardClose) == c
    ensures !(InTransaction(c) && !hardClose) ==> CloseConnection(c, hardClose).bound.None?
    ensures c.bound.Some? && !(InTransaction(c) && !hardClose) ==>
      CloseConnection(c, hardClose).events
        == c.events + [AutoCommitSet(c.bound.value.id, true), Closed(c.bound.value.id)]
  {
  }

  /** After a soft close, any bound connection is in a transaction. */
  lemma SoftCloseAtRest(c: Ctx)
    ensures AtRest(CloseConnection(c, false))
  {
  }

  /** `commit` without a connection does nothing; a successful commit always ends with no connection bound. */
  lemma CommitSpec(c: Ctx)
    ensures c.bound.None? ==> Commit(c) == c
    ensures c.bound.Some? && c.db.commitOk ==>
      Commit(c).bound.None?
      && Commit(c).events == c.events + [Committed(c.bound.value.id), AutoCommitSet(c.bound.value.id, true),
                                         Closed(c.bound.value.id)]
    ensures c.bound.Some? && !c.db.commitOk ==> Commit(c) == c
  {
  }

  /** `rollback` without a connection does nothing; otherwise it ends with no connection bound unless the rollback throws. */
  lemma RollbackSpec(c: Ctx)
    ensures c.bound.None? ==> Rollback(c) == c
    ensures c.bound.Some? && (c.bound.value.autoCommit || c.db.rollbackOk) ==> Rollback(c).bound.None?
    ensures InTransaction(c) && !c.db.rollbackOk ==> Rollback(c) == c
  {
  }

  /** The database sees a rollback exactly when the bound connection has autoCommit off (and the rollback succeeds). */
  lemma RollbackReachesDatabase(c: Ctx)
    ensures Extends(c, Rollback(c))
    ensures (exists e :: e in Added(c, Rollback(c)) && e.RolledBack?) <==> InTransaction(c) && c.db.rollbackOk
    ensures InTransaction(c) && c.db.rollbackOk ==>
      Added(c, Rollback(c)) == [RolledBack(c.bound.value.id), AutoCommitSet(c.bound.value.id, true),
                                Closed(c.bound.value.id)]
  {
    if c.bound.Some? {
      var k := c.bound.value;
      if k.autoCommit {
        assert Added(c, Rollback(c)) == [AutoCommitSet(k.id, true), Closed(k.id)];
      } else if c.db.rollbackOk {
        assert Added(c, Rollback(c)) == [RolledBack(k.id), AutoCommitSet(k.id, true), Closed(k.id)];
        assert RolledBack(k.id) in Added(c, Rollback(c));
      } else {
        assert Added(c, Rollback(c)) == [];
      }
    } else {
      assert Added(c, Rollback(c)) == [];
    }
  }

  /** Starting a transaction at rest leaves a transaction open whenever the pool answers. */
  lemma StartTransactionSpec(c: Ctx)
    requires AtRest(c)
    ensures AtRest(StartTransaction(c))
    ensures c.bound.Some? ==> StartTransaction(c) == c
    ensures c.db.poolUp ==> InTransaction(StartTransaction(c))
  {
  }

  // ---- statements inside and outside a transaction ----

  /**
   * Inside a transaction a statement runs on the transaction's connection and keeps it
   * bound; a failing statement rolls the whole transaction back and releases it.
   */
  lemma StatementInTransaction(c: Ctx, sql: string, args: seq<Value>, answer: Answer)
    requires InTransaction(c)
    ensures var id := c.bound.value.id;
            var run := Executed(id, sql, Bindings(args, 1));
            var (d, n) := ExecutePreparedUpdate(c, sql, args, answer);
            (answer.Updated? ==> d == Log(c, run) && n == answer.count)
            && (answer.SqlError? && c.db.rollbackOk ==>
                  n == 0 && d == c.(bound := None,
                                    events := c.events + [run, RolledBack(id), AutoCommitSet(id, true), Closed(id)]))
            && (answer.SqlError? && !c.db.rollbackOk ==> n == 0 && d == Log(c, run))
  {
  }

  /**
   * Outside a transaction every statement gets a connection of its own and releases it,
   * whatever the statement answers; no rollback reaches the database.
   */
  lemma StatementOutsideTransaction(c: Ctx, sql: string, args: seq<Value>, answer: Answer)
    requires c.bound.None?
    ensures var n := c.nextId;
            var (d, count) := ExecutePreparedUpdate(c, sql, args, answer);
            (c.db.poolUp ==>
               d == c.(nextId := n + 1,
                       events := c.events + [Acquired(n), Executed(n, sql, Bindings(args, 1)),
                                             AutoCommitSet(n, true), Closed(n)])
               && count == (if answer.Updated? then answer.count else 0))
            && (!c.db.poolUp ==> d == c && count == 0)
  {
  }

  // ---- inserts ----

  /**
   * Outside a transaction an insert and its audit share one connection, which the audit's
   * own soft close releases.
   */
  lemma InsertOutsideTransaction(c: Ctx, r: InsertRequest, key: Int64)
    requires WellFormed(r) && c.bound.None? && c.db.poolUp
    requires r.answer.execution.Updated? && r.answer.generatedKey == Some(key) && r.answer.audit.Updated?
    requires r.className != AUDIT_CLASS_NAME
    ensures var n := c.nextId;
            var (d, result) := Insert(c, r);
            result == key && d.bound.None? && d.nextId == n + 1
            && d.events == c.events + [Acquired(n), Executed(n, r.sql, Bindings(InsertArgs(r.fields, r.values), 1)),
                                       Executed(n, AUDIT_SQL, Bindings(AuditArgs(InsertAudit(r.className, key), r.now), 1)),
                                       AutoCommitSet(n, true), Closed(n)]
  {
  }

  /**
   * Inside a transaction, a failing audit insert rolls back the caller's transaction,
   * and the insert still reports its generated key.
   */
  lemma InsertAuditFailureInTransaction(c: Ctx, r: InsertRequest, key: Int64)
    requires WellFormed(r) && InTransaction(c) && c.db.rollbackOk
    requires r.answer.execution.Updated? && r.answer.generatedKey == Some(key) && r.answer.audit.SqlError?
    requires r.className != AUDIT_CLASS_NAME
    ensures var id := c.bound.value.id;
            var (d, result) := Insert(c, r);
            result == key && d.bound.None? && RolledBack(id) in Added(c, d)
  {
    var id := c.bound.value.id;
    var c2 := Log(c, Executed(id, r.sql, Bindings(InsertArgs(r.fields, r.values), 1)));
    var args := AuditArgs(InsertAudit(r.className, key), r.now);
    StatementInTransaction(c2, AUDIT_SQL, args, r.answer.audit);
    var d := Insert(c, r).0;
    assert d.events == c.events + [Executed(id, r.sql, Bindings(InsertArgs(r.fields, r.values), 1)),
                                   Executed(id, AUDIT_SQL, Bindings(args, 1)), RolledBack(id),
                                   AutoCommitSet(id, true), Closed(id)];
    assert Added(c, d)[2] == RolledBack(id);
  }

  /**
   * A non-zero insert result is the generated key of a statement that ran; and when a
   * connection runs the statement and a key row comes back, the result is that key,
   * whatever the audit answers.
   */
  lemma InsertResult(c: Ctx, r: InsertRequest)
    requires WellFormed(r)
    ensures Insert(c, r).1 != 0 ==>
      r.answer.execution.Updated? && r.answer.generatedKey == Some(Insert(c, r).1)
      && (c.bound.Some? || c.db.poolUp)
    ensures (c.bound.Some? || c.db.poolUp) && r.answer.execution.Updated? && r.answer.generatedKey.Some? ==>
      Insert(c, r).1 == r.answer.generatedKey.value
  {
  }

  /**
   * Inside a transaction a successful insert and its audit both run on the transaction's
   * connection, which stays bound: the deferred release.
   */
  lemma InsertInTransaction(c: Ctx, r: InsertRequest, key: Int64)
    requires WellFormed(r) && InTransaction(c)
    requires r.answer.execution.Updated? && r.answer.generatedKey == Some(key) && r.answer.audit.Updated?
    requires r.className != AUDIT_CLASS_NAME
    ensures var id := c.bound.value.id;
            var (d, result) := Insert(c, r);
            result == key && d.bound == c.bound && d.nextId == c.nextId
            && d.events == c.events + [Executed(id, r.sql, Bindings(InsertArgs(r.fields, r.values), 1)),
                                       Executed(id, AUDIT_SQL, Bindings(AuditArgs(InsertAudit(r.className, key), r.now), 1))]
  {
  }

  /** `_insertFromList` yields one result per object, each that object's insert in the context the earlier ones left. */
  lemma {:induction false} InsertAllResults(c: Ctx, rs: seq<InsertRequest>, k: nat)
    requires forall j :: 0 <= j < |rs| ==> WellFormed(rs[j])
    requires k < |rs|
    ensures |InsertAll(c, rs).1| == |rs|
    ensures InsertAll(c, rs).1[k] == Insert(InsertAll(c, rs[..k]).0, rs[k]).1
    decreases |rs|
  {
    var last := |rs| - 1;
    InsertAllLength(c, rs[..last]);
    if k < last {
      InsertAllResults(c, rs[..last], k);
      assert rs[..last][..k] == rs[..k];
    } else {
      assert rs[..k] == rs[..last];
    }
  }

  lemma {:induction false} InsertAllLength(c: Ctx, rs: seq<InsertRequest>)
    requires forall j :: 0 <= j < |rs| ==> WellFormed(rs[j])
    ensures |InsertAll(c, rs).1| == |rs|
    decreases |rs|
  {
    if rs != [] {
      InsertAllLength(c, rs[..|rs| - 1]);
    }
  }

  /** The success count and the failure count add up to the number of objects. */
  lemma {:induction false} CountPositiveSplit(keys: seq<Int64>)
    ensures CountPositive(keys) + |set k | 0 <= k < |keys| && keys[k] <= 0| == |keys|
    decreases |keys|
  {
    if keys != [] {
      var last := |keys| - 1;
      CountPositiveSplit(keys[..last]);
      var before := set k | 0 <= k < last && keys[..last][k] <= 0;
      var now := set k | 0 <= k < |keys| && keys[k] <= 0;
      assert now == before + (if keys[last] <= 0 then {last} else {}) by {
        forall k | 0 <= k < last
          ensures keys[..last][k] == keys[k]
        {
        }
      }
    }
  }

  // ---- updates ----

  /** Without a plan an update does nothing; a result of 1 means exactly one row changed. */
  lemma UpdateResult(c: Ctx, plan: Option<UpdatePlan>, className: string, objectText: string,
                     answer: Answer, auditAnswers: seq<Answer>, now: Int64, cacheEnabled: bool)
    requires plan.Some? ==> |auditAnswers| == |plan.value.updatedFields|
    ensures plan.None? ==> Update(c, plan, className, objectText, answer, auditAnswers, now, cacheEnabled) == (c, 0)
    ensures var n := Update(c, plan, className, objectText, answer, auditAnswers, now, cacheEnabled).1;
            (n == 0 || n == 1)
            && (n == 1 <==> plan.Some? && answer == Updated(1) && (c.bound.Some? || c.db.poolUp))
  {
  }

  /** The audit inserts of an update on connection `id`, one per changed field, in order. */
  function UpdateAuditEvents(id: nat, className: string, objectText: string, fields: seq<UpdatedField>,
                             now: Int64): seq<Event>
    decreases |fields|
  {
    if fields == [] then []
    else
      var last := |fields| - 1;
      UpdateAuditEvents(id, className, objectText, fields[..last], now)
        + [Executed(id, AUDIT_SQL, Bindings(AuditArgs(UpdateAudit(className, objectText, fields[last]), now), 1))]
  }

  /**
   * Inside a transaction, audits that succeed all run on the transaction's connection, in
   * field order, and leave it bound.
   */
  lemma {:induction false} AuditUpdatesInTransaction(c: Ctx, className: string, objectText: string,
                                                     fields: seq<UpdatedField>, answers: seq<Answer>, now: Int64)
    requires |answers| == |fields| && InTransaction(c) && className != AUDIT_CLASS_NAME
    requires forall k :: 0 <= k < |answers| ==> answers[k].Updated?
    ensures AuditUpdates(c, className, objectText, fields, answers, now)
            == c.(events := c.events + UpdateAuditEvents(c.bound.value.id, className, objectText, fields, now))
    decreases |fields|
  {
    if fields != [] {
      var last := |fields| - 1;
      var id := c.bound.value.id;
      AuditUpdatesInTransaction(c, className, objectText, fields[..last], answers[..last], now);
      var c1 := AuditUpdates(c, className, objectText, fields[..last], answers[..last], now);
      var args := AuditArgs(UpdateAudit(className, objectText, fields[last]), now);
      StatementInTransaction(c1, AUDIT_SQL, args, answers[last]);
      assert c.events + UpdateAuditEvents(id, className, objectText, fields, now)
          == c1.events + [Executed(id, AUDIT_SQL, Bindings(args, 1))];
    }
  }

  /**
   * Inside a transaction an update that changes one row runs, with every audit and the
   * cache store, on the transaction's connection, which stays bound: the deferred release.
   */
  lemma UpdateInTransaction(c: Ctx, p: UpdatePlan, className: string, objectText: string,
                            auditAnswers: seq<Answer>, now: Int64, cacheEnabled: bool)
    requires |auditAnswers| == |p.updatedFields| && InTransaction(c) && className != AUDIT_CLASS_NAME
    requires forall k :: 0 <= k < |auditAnswers| ==> auditAnswers[k].Updated?
    ensures var id := c.bound.value.id;
            var (d, result) := Update(c, Some(p), className, objectText, Updated(1), auditAnswers, now, cacheEnabled);
            result == 1 && d.bound == c.bound && d.nextId == c.nextId
            && d.events == c.events + [Executed(id, p.sql, Bindings(p.args, 1))]
                                    + UpdateAuditEvents(id, className, objectText, p.updatedFields, now)
                                    + (if cacheEnabled then [CacheStored(objectText)] else [])
  {
    var id := c.bound.value.id;
    var c2 := Log(c, Executed(id, p.sql, Bindings(p.args, 1)));
    AuditUpdatesInTransaction(c2, className, objectText, p.updatedFields, auditAnswers, now);
  }

  /** The audits of an update with no connection bound: each acquires, runs on and releases a connection of its own. */
  function FreshAuditEvents(firstId: nat, className: string, objectText: string, fields: seq<UpdatedField>,
                            now: Int64): seq<Event>
    decreases |fields|
  {
    if fields == [] then []
    else
      var last := |fields| - 1;
      var id := firstId + last;
      FreshAuditEvents(firstId, className, objectText, fields[..last], now)
        + [Acquired(id),
           Executed(id, AUDIT_SQL, Bindings(AuditArgs(UpdateAudit(className, objectText, fields[last]), now), 1)),
           AutoCommitSet(id, true), Closed(id)]
  }

  /** Auditing one run of fields and then another is auditing both runs together. */
  lemma {:induction false} AuditUpdatesAppend(c: Ctx, className: string, objectText: string,
                                              f: seq<UpdatedField>, af: seq<Answer>,
                                              g: seq<UpdatedField>, ag: seq<Answer>, now: Int64)
    requires |af| == |f| && |ag| == |g|
    ensures AuditUpdates(c, className, objectText, f + g, af + ag, now)
            == AuditUpdates(AuditUpdates(c, className, objectText, f, af, now), className, objectText, g, ag, now)
    decreases |g|
  {
    if g == [] {
      assert f + g == f && af + ag == af;
    } else {
      var last := |g| - 1;
      assert (f + g)[..|f| + last] == f + g[..last];
      assert (af + ag)[..|af| + last] == af + ag[..last];
      assert (f + g)[|f| + last] == g[last] && (af + ag)[|af| + last] == ag[last];
      AuditUpdatesAppend(c, className, objectText, f, af, g[..last], ag[..last], now);
    }
  }

  /**
   * With no connection bound and the pool answering, every audit of an update gets a fresh
   * connection and releases it, whatever it answers.
   */
  lemma {:induction false} AuditUpdatesOutsideTransaction(c: Ctx, className: string, objectText: string,
                                                          fields: seq<UpdatedField>, answers: seq<Answer>, now: Int64)
    requires |answers| == |fields| && c.bound.None? && c.db.poolUp && className != AUDIT_CLASS_NAME
    ensures AuditUpdates(c, className, objectText, fields, answers, now)
            == c.(nextId := c.nextId + |fields|,
                  events := c.events + FreshAuditEvents(c.nextId, className, objectText, fields, now))
    decreases |fields|
  {
    if fields != [] {
      var last := |fields| - 1;
      AuditUpdatesOutsideTransaction(c, className, objectText, fields[..last], answers[..last], now);
      var c1 := AuditUpdates(c, className, objectText, fields[..last], answers[..last], now);
      var args := AuditArgs(UpdateAudit(className, objectText, fields[last]), now);
      StatementOutsideTransaction(c1, AUDIT_SQL, args, answers[last]);
    }
  }

  /**
   * Outside a transaction an update that changes one row runs on a connection of its own.
   * The first audit reuses that connection and its soft close releases it; every further
   * audit acquires and releases a fresh one; the cache store comes last.
   */
  lemma UpdateOutsideTransaction(c: Ctx, p: UpdatePlan, className: string, objectText: string,
                                 auditAnswers: seq<Answer>, now: Int64, cacheEnabled: bool)
    requires |auditAnswers| == |p.updatedFields| && c.bound.None? && c.db.poolUp && className != AUDIT_CLASS_NAME
    requires p.updatedFields != []
    ensures var n := c.nextId;
            var fields := p.updatedFields;
            var (d, result) := Update(c, Some(p), className, objectText, Updated(1), auditAnswers, now, cacheEnabled);
            result == 1 && d.bound.None? && d.nextId == n + |fields|
            && d.events == c.events
                           + [Acquired(n), Executed(n, p.sql, Bindings(p.args, 1)),
                              Executed(n, AUDIT_SQL, Bindings(AuditArgs(UpdateAudit(className, objectText, fields[0]), now), 1)),
                              AutoCommitSet(n, true), Closed(n)]
                           + FreshAuditEvents(n + 1, className, objectText, fields[1..], now)
                           + (if cacheEnabled then [CacheStored(objectText)] else [])
  {
    var n := c.nextId;
    var c2 := UpdateRun(c, p);
    var c4 := AuditUpdates(c2, className, objectText, p.updatedFields, auditAnswers, now);
    UpdateAuditsReleaseFirst(c2, className, objectText, p.updatedFields, auditAnswers, now);
    var c5 := if cacheEnabled then Log(c4, CacheStored(objectText)) else c4;
    assert Update(c, Some(p), className, objectText, Updated(1), auditAnswers, now, cacheEnabled) == (c5, 1);
  }

  /**
   * Outside a transaction an update that changes one row but has no changed field to audit
   * stores into the cache before its own soft close releases its connection.
   */
  lemma UpdateOutsideTransactionNoAudit(c: Ctx, p: UpdatePlan, className: string, objectText: string,
                                        now: Int64, cacheEnabled: bool)
    requires c.bound.None? && c.db.poolUp && p.updatedFields == []
    ensures var n := c.nextId;
            var (d, result) := Update(c, Some(p), className, objectText, Updated(1), [], now, cacheEnabled);
            result == 1 && d.bound.None? && d.nextId == n + 1
            && d.events == c.events + [Acquired(n), Executed(n, p.sql, Bindings(p.args, 1))]
                           + (if cacheEnabled then [CacheStored(objectText)] else [])
                           + [AutoCommitSet(n, true), Closed(n)]
  {
    var c2 := UpdateRun(c, p);
    var c5 := if cacheEnabled then Log(c2, CacheStored(objectText)) else c2;
    assert Update(c, Some(p), className, objectText, Updated(1), [], now, cacheEnabled)
           == (CloseConnection(c5, false), 1);
  }

  /** The context after an update statement ran on a fresh connection: acquired with autoCommit on, then the statement. */
  function UpdateRun(c: Ctx, p: UpdatePlan): (d: Ctx)
    requires c.bound.None? && c.db.poolUp
    ensures d == Log(GetConnection(c, true).0, Executed(c.nextId, p.sql, Bindings(p.args, 1)))
    ensures d.bound == Some(Connection(c.nextId, true)) && d.db == c.db
  {
    c.(nextId := c.nextId + 1, bound := Some(Connection(c.nextId, true)),
       events := c.events + [Acquired(c.nextId), Executed(c.nextId, p.sql, Bindings(p.args, 1))])
  }

  /** The audits of an update whose own connection has autoCommit on: the first releases it, the rest each use a fresh one. */
  lemma UpdateAuditsReleaseFirst(c: Ctx, className: string, objectText: string,
                                 fields: seq<UpdatedField>, answers: seq<Answer>, now: Int64)
    requires |answers| == |fields| && fields != [] && className != AUDIT_CLASS_NAME && c.db.poolUp
    requires c.bound.Some? && c.bound.value.autoCommit && c.bound.value.id < c.nextId
    ensures var id := c.bound.value.id;
            AuditUpdates(c, className, objectText, fields, answers, now)
            == c.(bound := None, nextId := c.nextId + |fields| - 1,
                  events := c.events
                            + [Executed(id, AUDIT_SQL, Bindings(AuditArgs(UpdateAudit(className, objectText, fields[0]), now), 1)),
                               AutoCommitSet(id, true), Closed(id)]
                            + FreshAuditEvents(c.nextId, className, objectText, fields[1..], now))
  {
    var id := c.bound.value.id;
    assert fields == [fields[0]] + fields[1..];
    assert answers == [answers[0]] + answers[1..];
    AuditUpdatesAppend(c, className, objectText, [fields[0]], [answers[0]], fields[1..], answers[1..], now);
    var r := UpdateAudit(className, objectText, fields[0]);
    var c3 := AuditUpdates(c, className, objectText, [fields[0]], [answers[0]], now);
    assert [fields[0]][..0] == [] && [answers[0]][..0] == [];
    assert c3 == CreateAudit(c, r, now, answers[0]);
    assert c3 == c.(bound := None,
                    events := c.events + [Executed(id, AUDIT_SQL, Bindings(AuditArgs(r, now), 1)),
                                          AutoCommitSet(id, true), Closed(id)]);
    AuditUpdatesOutsideTransaction(c3, className, objectText, fields[1..], answers[1..], now);
  }

  /** Audits never touch the object cache. */
  lemma {:induction false} AuditUpdatesNoCache(c: Ctx, className: string, objectText: string,
                                              fields: seq<UpdatedField>, answers: seq<Answer>, now: Int64)
    requires |answers| == |fields|
    ensures var d := AuditUpdates(c, className, objectText, fields, answers, now);
            Extends(c, d) && forall e :: e in Added(c, d) ==> !e.CacheStored?
    decreases |fields|
  {
    if fields != [] {
      var last := |fields| - 1;
      var c1 := AuditUpdates(c, className, objectText, fields[..last], answers[..last], now);
      AuditUpdatesNoCache(c, className, objectText, fields[..last], answers[..last], now);
      var r := UpdateAudit(className, objectText, fields[last]);
      var d := CreateAudit(c1, r, now, answers[last]);
      CreateAuditExtends(c1, r, now, answers[last]);
      assert Added(c, d) == Added(c, c1) + Added(c1, d);
    }
  }

  /** An audit only adds events about connections, never a cache store. */
  lemma CreateAuditExtends(c: Ctx, r: AuditRequest, now: Int64, answer: Answer)
    ensures var d := CreateAudit(c, r, now, answer);
            Extends(c, d) && forall e :: e in Added(c, d) ==> !e.CacheStored?
  {
    var d := CreateAudit(c, r, now, answer);
    if AuditStatement(r, now).Some? {
      var args := AuditStatement(r, now).value;
      if c.bound.Some? {
        if InTransaction(c) {
          StatementInTransaction(c, AUDIT_SQL, args, answer);
        } else {
          assert Added(c, d) == [Executed(c.bound.value.id, AUDIT_SQL, Bindings(args, 1)),
                                 AutoCommitSet(c.bound.value.id, true), Closed(c.bound.value.id)];
        }
      } else {
        StatementOutsideTransaction(c, AUDIT_SQL, args, answer);
      }
    } else {
      assert Added(c, d) == [];
    }
  }

  /** `d` extends `c` by events none of which is a cache store. */
  predicate CacheFree(c: Ctx, d: Ctx) {
    Extends(c, d) && forall e :: e in Added(c, d) ==> !e.CacheStored?
  }

  lemma ExtendsChain(a: Ctx, b: Ctx, c: Ctx)
    requires Extends(a, b) && Extends(b, c)
    ensures Extends(a, c) && Added(a, c) == Added(a, b) + Added(b, c)
  {
    assert c.events[..|b.events|][..|a.events|] == c.events[..|a.events|];
  }

  lemma CacheFreeChain(a: Ctx, b: Ctx, c: Ctx)
    requires CacheFree(a, b) && CacheFree(b, c)
    ensures CacheFree(a, c)
  {
    ExtendsChain(a, b, c);
  }

  lemma LogCacheFree(c: Ctx, e: Event)
    requires !e.CacheStored?
    ensures CacheFree(c, Log(c, e))
  {
    assert Added(c, Log(c, e)) == [e];
  }

  lemma CloseCacheFree(c: Ctx, hardClose: bool)
    ensures CacheFree(c, CloseConnection(c, hardClose))
  {
    if c.bound.Some? {
      var k := c.bound.value;
      LogCacheFree(c, AutoCommitSet(k.id, true));
      LogCacheFree(Log(c, AutoCommitSet(k.id, true)), Closed(k.id));
      CacheFreeChain(c, Log(c, AutoCommitSet(k.id, true)), Log(Log(c, AutoCommitSet(k.id, true)), Closed(k.id)));
    }
  }

  lemma RollbackCacheFree(c: Ctx)
    ensures CacheFree(c, Rollback(c))
  {
    if c.bound.Some? {
      var k := c.bound.value;
      CloseCacheFree(c, true);
      LogCacheFree(c, RolledBack(k.id));
      CloseCacheFree(Log(c, RolledBack(k.id)), true);
      CacheFreeChain(c, Log(c, RolledBack(k.id)), CloseConnection(Log(c, RolledBack(k.id)), true));
    }
  }

  lemma GetConnectionCacheFree(c: Ctx, autoCommit: bool)
    ensures CacheFree(c, GetConnection(c, autoCommit).0)
  {
    var d := GetConnection(c, autoCommit).0;
    if c.bound.None? && c.db.poolUp {
      if autoCommit {
        assert Added(c, d) == [Acquired(c.nextId)];
      } else {
        assert Added(c, d) == [Acquired(c.nextId), AutoCommitSet(c.nextId, false)];
      }
    }
  }

  /**
   * The object cache is written exactly when the update reports one changed row and the
   * cache is on, whatever the audits answer.
   */
  lemma UpdateCacheStore(c: Ctx, plan: Option<UpdatePlan>, className: string, objectText: string,
                         answer: Answer, auditAnswers: seq<Answer>, now: Int64, cacheEnabled: bool)
    requires plan.Some? ==> |auditAnswers| == |plan.value.updatedFields|
    ensures var (d, n) := Update(c, plan, className, objectText, answer, auditAnswers, now, cacheEnabled);
            Extends(c, d)
            && ((exists e :: e in Added(c, d) && e.CacheStored?) <==> n == 1 && cacheEnabled)
  {
    var (d, n) := Update(c, plan, className, objectText, answer, auditAnswers, now, cacheEnabled);
    if plan.None? {
      assert Added(c, d) == [];
      return;
    }
    var p := plan.value;
    var (c1, connection) := GetConnection(c, true);
    GetConnectionCacheFree(c, true);
    if connection.None? {
      RollbackCacheFree(c1);
      CloseCacheFree(Rollback(c1), false);
      CacheFreeChain(c1, Rollback(c1), d);
      CacheFreeChain(c, c1, d);
      return;
    }
    var c2 := Log(c1, Executed(connection.value.id, p.sql, Bindings(p.args, 1)));
    LogCacheFree(c1, Executed(connection.value.id, p.sql, Bindings(p.args, 1)));
    CacheFreeChain(c, c1, c2);
    if answer.SqlError? {
      RollbackCacheFree(c2);
      CloseCacheFree(Rollback(c2), false);
      CacheFreeChain(c2, Rollback(c2), d);
      CacheFreeChain(c, c2, d);
    } else if answer.count != 1 {
      CloseCacheFree(c2, false);
      CacheFreeChain(c, c2, d);
    } else {
      var c3 := AuditUpdates(c2, className, objectText, p.updatedFields, auditAnswers, now);
      AuditUpdatesNoCache(c2, className, objectText, p.updatedFields, auditAnswers, now);
      CacheFreeChain(c, c2, c3);
      var c4 := if cacheEnabled then Log(c3, CacheStored(objectText)) else c3;
      assert d == CloseConnection(c4, false);
      CloseCacheFree(c4, false);
      if cacheEnabled {
        assert Added(c3, c4) == [CacheStored(objectText)];
        ExtendsChain(c3, c4, d);
        ExtendsChain(c, c3, d);
        assert Added(c, d) == Added(c, c3) + (Added(c3, c4) + Added(c4, d));
        assert CacheStored(objectText) in Added(c, d);
      } else {
        CacheFreeChain(c, c3, d);
      }
    }
  }

  // ---- queries ----

  /** A query never rolls back, whatever it answers. */
  lemma QueryNeverRollsBack<T>(c: Ctx, sql: string, args: seq<Value>, answer: QueryAnswer<T>)
    ensures var d := ExecuteQuery(c, sql, args, answer).0;
            Extends(c, d) && forall e :: e in Added(c, d) ==> !e.RolledBack?
  {
    var d := ExecuteQuery(c, sql, args, answer).0;
    if c.bound.Some? {
      var id := c.bound.value.id;
      if c.bound.value.autoCommit {
        assert Added(c, d) == [Executed(id, sql, Bindings(args, 1)), AutoCommitSet(id, true), Closed(id)];
      } else {
        assert Added(c, d) == [Executed(id, sql, Bindings(args, 1))];
      }
    } else if c.db.poolUp {
      var n := c.nextId;
      assert Added(c, d) == [Acquired(n), Executed(n, sql, Bindings(args, 1)), AutoCommitSet(n, true), Closed(n)];
    } else {
      assert Added(c, d) == [];
    }
  }

  /** The single result is the first row when there is one, and null for a failed or empty query. */
  lemma FirstOrNullSpec<T>(results: Option<seq<T>>)
    ensures FirstOrNull(results).Some? <==> results.Some? && |results.value| > 0
    ensures FirstOrNull(results).Some? ==> FirstOrNull(results).value == results.value[0]
  {
  }

  /** With a connection, a query's single result is its first row, or null when it returns none. */
  lemma QueryOneResult<T>(c: Ctx, sql: string, args: seq<Value>, rows: seq<T>)
    requires c.bound.Some? || c.db.poolUp
    ensures ExecuteQueryOneResult(c, sql, args, Rows(rows)).1 == if |rows| > 0 then Some(rows[0]) else None
    ensures ExecuteQueryOneResult<T>(c, sql, args, QueryError).1 == None
  {
  }

  // ---- the invariants every public operation keeps ----

  /** What holds between public operations: `Valid`, and no connection bound outside a transaction. */
  predicate Invariant(c: Ctx) {
    Valid(c) && AtRest(c)
  }

  /** An event about a connection that is not closed keeps the log free of use after close. */
  lemma AppendNoUseAfterClose(es: seq<Event>, e: Event)
    requires NoUseAfterClose(es)
    requires !e.CacheStored? ==> Closed(e.id) !in es
    ensures NoUseAfterClose(es + [e])
  {
    var es' := es + [e];
    forall i, j | 0 <= i < j < |es'| && es'[i].Closed?
      ensures !Mentions(es'[j], es'[i].id)
    {
      if j == |es| {
        assert es'[i] == es[i];
      }
    }
  }

  /** Logging an event, other than a close, about an acquired connection that is still open keeps `Valid`. */
  lemma LogValid(c: Ctx, e: Event)
    requires Valid(c) && !e.Closed?
    requires !e.CacheStored? ==> e.id < c.nextId && Closed(e.id) !in c.events
    ensures Valid(Log(c, e))
  {
    AppendNoUseAfterClose(c.events, e);
  }

  /** Closing keeps `Valid`: the closed connection is unbound in the same step. */
  lemma CloseValid(c: Ctx, hardClose: bool)
    requires Valid(c)
    ensures Valid(CloseConnection(c, hardClose))
  {
    if c.bound.Some? && !(!c.bound.value.autoCommit && !hardClose) {
      var id := c.bound.value.id;
      var c1 := Log(c, AutoCommitSet(id, true));
      LogValid(c, AutoCommitSet(id, true));
      AppendNoUseAfterClose(c1.events, Closed(id));
    }
  }

  /** Acquiring keeps `Valid`, and the connection returned is the bound one. */
  lemma GetConnectionValid(c: Ctx, autoCommit: bool)
    requires Valid(c)
    ensures var (d, k) := GetConnection(c, autoCommit);
            Valid(d) && (k.Some? ==> d.bound == k)
  {
    if c.bound.None? && c.db.poolUp {
      var n := c.nextId;
      var c0 := c.(nextId := n + 1);
      assert Closed(n) !in c.events;
      LogValid(c0, Acquired(n));
      var c1 := Log(c0, Acquired(n));
      if !autoCommit {
        LogValid(c1, AutoCommitSet(n, false));
      }
    }
  }

  lemma RollbackValid(c: Ctx)
    requires Valid(c)
    ensures Valid(Rollback(c))
  {
    if c.bound.Some? {
      var id := c.bound.value.id;
      CloseValid(c, true);
      LogValid(c, RolledBack(id));
      CloseValid(Log(c, RolledBack(id)), true);
    }
  }

  /** A statement run on the connection `GetConnection` returned keeps `Valid`. */
  lemma ExecutedValid(c: Ctx, sql: string, args: seq<Value>)
    requires Valid(c) && c.bound.Some?
    ensures Valid(Log(c, Executed(c.bound.value.id, sql, Bindings(args, 1))))
  {
    LogValid(c, Executed(c.bound.value.id, sql, Bindings(args, 1)));
  }

  lemma StatementValid(c: Ctx, sql: string, args: seq<Value>, answer: Answer)
    requires Valid(c)
    ensures Valid(ExecutePreparedUpdate(c, sql, args, answer).0)
  {
    var (c1, connection) := GetConnection(c, true);
    GetConnectionValid(c, true);
    if connection.None? {
      RollbackValid(c1);
      CloseValid(Rollback(c1), false);
    } else {
      var c2 := Log(c1, Executed(connection.value.id, sql, Bindings(args, 1)));
      ExecutedValid(c1, sql, args);
      RollbackValid(c2);
      CloseValid(Rollback(c2), false);
      CloseValid(c2, false);
    }
  }

  /** `startTransaction` keeps the invariant. */
  lemma StartTransactionKeepsInvariant(c: Ctx)
    requires Invariant(c)
    ensures Invariant(StartTransaction(c))
  {
    GetConnectionValid(c, false);
    StartTransactionSpec(c);
  }

  /** `commit` keeps the invariant, whether or not the commit succeeds. */
  lemma CommitKeepsInvariant(c: Ctx)
    requires Invariant(c)
    ensures Invariant(Commit(c))
  {
    if c.bound.Some? && c.db.commitOk {
      LogValid(c, Committed(c.bound.value.id));
      CloseValid(Log(c, Committed(c.bound.value.id)), true);
    }
  }

  /** `rollback` keeps the invariant, whether or not the rollback succeeds. */
  lemma RollbackKeepsInvariant(c: Ctx)
    requires Invariant(c)
    ensures Invariant(Rollback(c))
  {
    RollbackValid(c);
  }

  /** `executePreparedUpdate` keeps the invariant: it always ends with a soft close. */
  lemma StatementKeepsInvariant(c: Ctx, sql: string, args: seq<Value>, answer: Answer)
    requires Invariant(c)
    ensures Invariant(ExecutePreparedUpdate(c, sql, args, answer).0)
  {
    StatementValid(c, sql, args, answer);
  }

  /** `createAudit` keeps the invariant. */
  lemma CreateAuditKeepsInvariant(c: Ctx, r: AuditRequest, now: Int64, answer: Answer)
    requires Invariant(c)
    ensures Invariant(CreateAudit(c, r, now, answer))
  {
    if AuditStatement(r, now).Some? {
      StatementKeepsInvariant(c, AUDIT_SQL, AuditStatement(r, now).value, answer);
    }
  }

  /** `_insert` keeps the invariant, its audit included. */
  lemma InsertKeepsInvariant(c: Ctx, r: InsertRequest)
    requires WellFormed(r) && Invariant(c)
    ensures Invariant(Insert(c, r).0)
  {
    var (c1, connection) := GetConnection(c, true);
    GetConnectionValid(c, true);
    if connection.None? {
      RollbackValid(c1);
      CloseValid(Rollback(c1), false);
    } else {
      var c2 := Log(c1, Executed(connection.value.id, r.sql, Bindings(InsertArgs(r.fields, r.values), 1)));
      ExecutedValid(c1, r.sql, InsertArgs(r.fields, r.values));
      RollbackValid(c2);
      CloseValid(Rollback(c2), false);
      CloseValid(c2, false);
      if r.answer.execution.Updated? && r.answer.generatedKey.Some? {
        var r' := InsertAudit(r.className, r.answer.generatedKey.value);
        if AuditStatement(r', r.now).Some? {
          StatementValid(c2, AUDIT_SQL, AuditStatement(r', r.now).value, r.answer.audit);
        }
        CloseValid(CreateAudit(c2, r', r.now, r.answer.audit), false);
      }
    }
  }

  /** `_insertFromList` keeps the invariant. */
  lemma {:induction false} InsertAllKeepsInvariant(c: Ctx, rs: seq<InsertRequest>)
    requires forall k :: 0 <= k < |rs| ==> WellFormed(rs[k])
    requires Invariant(c)
    ensures Invariant(InsertAll(c, rs).0)
    decreases |rs|
  {
    if rs != [] {
      InsertAllKeepsInvariant(c, rs[..|rs| - 1]);
      InsertKeepsInvariant(InsertAll(c, rs[..|rs| - 1]).0, rs[|rs| - 1]);
    }
  }

  /** The audits of an update keep `Valid`. */
  lemma {:induction false} AuditUpdatesValid(c: Ctx, className: string, objectText: string,
                                             fields: seq<UpdatedField>, answers: seq<Answer>, now: Int64)
    requires |answers| == |fields| && Valid(c)
    ensures Valid(AuditUpdates(c, className, objectText, fields, answers, now))
    decreases |fields|
  {
    if fields != [] {
      var last := |fields| - 1;
      var c1 := AuditUpdates(c, className, objectText, fields[..last], answers[..last], now);
      AuditUpdatesValid(c, className, objectText, fields[..last], answers[..last], now);
      var r := UpdateAudit(className, objectText, fields[last]);
      if AuditStatement(r, now).Some? {
        StatementValid(c1, AUDIT_SQL, AuditStatement(r, now).value, answers[last]);
      }
    }
  }

  /** `_update` keeps the invariant, its audits and cache store included. */
  lemma UpdateKeepsInvariant(c: Ctx, plan: Option<UpdatePlan>, className: string, objectText: string,
                             answer: Answer, auditAnswers: seq<Answer>, now: Int64, cacheEnabled: bool)
    requires plan.Some? ==> |auditAnswers| == |plan.value.updatedFields|
    requires Invariant(c)
    ensures Invariant(Update(c, plan, className, objectText, answer, auditAnswers, now, cacheEnabled).0)
  {
    if plan.Some? {
      var p := plan.value;
      var (c1, connection) := GetConnection(c, true);
      GetConnectionValid(c, true);
      if connection.None? {
        RollbackValid(c1);
        CloseValid(Rollback(c1), false);
      } else {
        var c2 := Log(c1, Executed(connection.value.id, p.sql, Bindings(p.args, 1)));
        ExecutedValid(c1, p.sql, p.args);
        RollbackValid(c2);
        CloseValid(Rollback(c2), false);
        CloseValid(c2, false);
        var c3 := AuditUpdates(c2, className, objectText, p.updatedFields, auditAnswers, now);
        AuditUpdatesValid(c2, className, objectText, p.updatedFields, auditAnswers, now);
        CloseValid(c3, false);
        LogValid(c3, CacheStored(objectText));
        CloseValid(Log(c3, CacheStored(objectText)), false);
      }
    }
  }

  /** `executeQuery` and `executeQueryOneResult` keep the invariant. */
  lemma QueryKeepsInvariant<T>(c: Ctx, sql: string, args: seq<Value>, answer: QueryAnswer<T>)
    requires Invariant(c)
    ensures Invariant(ExecuteQuery(c, sql, args, answer).0)
    ensures Invariant(ExecuteQueryOneResult(c, sql, args, answer).0)
  {
    var (c1, connection) := GetConnection(c, true);
    GetConnectionValid(c, true);
    CloseValid(c1, false);
    if connection.Some? {
      ExecutedValid(c1, sql, args);
      CloseValid(Log(c1, Executed(connection.value.id, sql, Bindings(args, 1))), false);
    }
  }
}
