/**
 * Binding of statement parameters (EOI.setPreparedStatementParameter and the loops that
 * call it): a Java value is bound to the one JDBC setter that matches its runtime class,
 * parameters are numbered from 1, and an insert binds the value of every field that is
 * not auto-incremented, in field order.
 */
module Parameters {
  import opened Wrappers
  import opened ColumnDef

  newtype Int32 = x: int | -0x8000_0000 <= x < 0x8000_0000
  newtype Int64 = x: int | -0x8000_0000_0000_0000 <= x < 0x8000_0000_0000_0000

  /** `java.sql.Types.NULL`, the SQL type every null is bound with. */
  const SQL_TYPE_NULL: Int32 := 0

  /** A Java object passed as a statement argument, by runtime class. */
  datatype Value =
    | StrVal(s: string)
    | IntVal(i: Int32)
    | LongVal(l: Int64)
    | BigDecimalVal(unscaled: int, scale: Int32)
    | DateVal(millis: Int64)
    | BytesVal(bytes: seq<bv8>)
    | BoolVal(b: bool)
    | NullVal
    | OtherVal(className: string)

  /** What a prepared statement holds at one parameter index after a setter call. */
  datatype Param =
    | PString(s: string)
    | PInt(i: Int32)
    | PLong(l: Int64)
    | PBigDecimal(unscaled: int, scale: Int32)
    | PTimestamp(millis: Int64)
    | PBytes(bytes: seq<bv8>)
    | PBoolean(b: bool)
    | PNull(sqlType: Int32)

  /** A value of one of the eight classes the binder knows. */
  predicate Supported(v: Value) {
    !v.OtherVal?
  }

  predicate AllSupported(args: seq<Value>) {
    forall k :: 0 <= k < |args| ==> Supported(args[k])
  }

  /** The parameter the binder leaves for `v`, or `None` when no setter matches its class. */
  function Bound(v: Value): Option<Param> {
    match v
    case StrVal(s) => Some(PString(s))
    case IntVal(i) => Some(PInt(i))
    case LongVal(l) => Some(PLong(l))
    case BigDecimalVal(u, sc) => Some(PBigDecimal(u, sc))
    case DateVal(ms) => Some(PTimestamp(ms))
    case BytesVal(b) => Some(PBytes(b))
    case BoolVal(b) => Some(PBoolean(b))
    case NullVal => Some(PNull(SQL_TYPE_NULL))
    case OtherVal(_) => None
  }

  /** The value a bound parameter reads back as: the partner of `Bound`. */
  function ReadBack(p: Param): Value {
    match p
    case PString(s) => StrVal(s)
    case PInt(i) => IntVal(i)
    case PLong(l) => LongVal(l)
    case PBigDecimal(u, sc) => BigDecimalVal(u, sc)
    case PTimestamp(ms) => DateVal(ms)
    case PBytes(b) => BytesVal(b)
    case PBoolean(b) => BoolVal(b)
    case PNull(_) => NullVal
  }

  /** A value is bound exactly when its class is supported, and it reads back unchanged. */
  lemma BoundRoundTrip(v: Value)
    ensures Bound(v).Some? <==> Supported(v)
    ensures Bound(v).Some? ==> ReadBack(Bound(v).value) == v
  {
  }

  /** Every setter is reached: each kind of parameter is bound for the value it reads back as. */
  lemma BoundCoversSetters(p: Param)
    requires p.PNull? ==> p.sqlType == SQL_TYPE_NULL
    ensures Bound(ReadBack(p)) == Some(p)
  {
  }

  /** Distinct supported values never share a binding. */
  lemma BoundInjective(v: Value, w: Value)
    requires Supported(v) && Supported(w) && Bound(v) == Bound(w)
    ensures v == w
  {
    BoundRoundTrip(v);
    BoundRoundTrip(w);
  }

  /**
   * The parameters bound for `args`, numbered from `start`: index `start + k` holds the
   * binding of `args[k]`, and is left unset when that value's class is unsupported.
   */
  function Bindings(args: seq<Value>, start: int): map<int, Param>
    decreases |args|
  {
    if args == [] then map[]
    else
      var last := |args| - 1;
      var earlier := Bindings(args[..last], start);
      match Bound(args[last])
      case Some(p) => earlier[start + last := p]
      case None => earlier
  }

  /** Index `i` is set exactly when it numbers a supported argument, and holds that argument's binding. */
  lemma {:induction false} BindingsAt(args: seq<Value>, start: int, i: int)
    ensures i in Bindings(args, start) <==> start <= i < start + |args| && Supported(args[i - start])
    ensures i in Bindings(args, start) ==> Bindings(args, start)[i] == Bound(args[i - start]).value
    decreases |args|
  {
    if args != [] {
      var last := |args| - 1;
      BindingsAt(args[..last], start, i);
      if i != start + last && start <= i < start + last {
        assert args[..last][i - start] == args[i - start];
      }
    }
  }

  /** When every argument is supported, the bound parameters read back as the arguments, in order. */
  lemma BindingsReadBack(args: seq<Value>, start: int)
    requires AllSupported(args)
    ensures forall i :: start <= i < start + |args| ==>
      i in Bindings(args, start) && ReadBack(Bindings(args, start)[i]) == args[i - start]
  {
    forall i | start <= i < start + |args|
      ensures i in Bindings(args, start) && ReadBack(Bindings(args, start)[i]) == args[i - start]
    {
      BindingsAt(args, start, i);
      BoundRoundTrip(args[i - start]);
    }
  }

  /** Binding one more argument sets only its own index. */
  lemma BindingsSnoc(args: seq<Value>, v: Value, start: int)
    ensures Bindings(args + [v], start) ==
      (if Supported(v) then Bindings(args, start)[start + |args| := Bound(v).value] else Bindings(args, start))
  {
    assert (args + [v])[..|args|] == args;
  }

  /** The values an insert binds: each field's value in field order, skipping auto-increment fields. */
  function InsertArgs(fields: seq<FieldMeta>, values: seq<Value>): seq<Value>
    requires |fields| == |values|
    decreases |fields|
  {
    if fields == [] then []
    else
      var last := |fields| - 1;
      var earlier := InsertArgs(fields[..last], values[..last]);
      if fields[last].autoIncrement then earlier else earlier + [values[last]]
  }

  /** The fields whose values an insert binds. */
  function BoundFields(fields: seq<FieldMeta>): seq<FieldMeta>
    decreases |fields|
  {
    if fields == [] then []
    else
      var last := |fields| - 1;
      BoundFields(fields[..last]) + (if fields[last].autoIncrement then [] else [fields[last]])
  }

  /** An insert binds one value per non-auto-increment field, and nothing from auto-increment fields. */
  lemma {:induction false} InsertArgsCount(fields: seq<FieldMeta>, values: seq<Value>)
    requires |fields| == |values|
    ensures |InsertArgs(fields, values)| == |BoundFields(fields)|
    ensures forall f :: f in BoundFields(fields) ==> f in fields && !f.autoIncrement
    decreases |fields|
  {
    if fields != [] {
      var last := |fields| - 1;
      InsertArgsCount(fields[..last], values[..last]);
    }
  }

  /** The insert values of two runs of fields are those of each run, one after the other. */
  lemma {:induction false} InsertArgsAppend(f1: seq<FieldMeta>, v1: seq<Value>, f2: seq<FieldMeta>, v2: seq<Value>)
    requires |f1| == |v1| && |f2| == |v2|
    ensures InsertArgs(f1 + f2, v1 + v2) == InsertArgs(f1, v1) + InsertArgs(f2, v2)
    decreases |f2|
  {
    if f2 == [] {
      assert f1 + f2 == f1 && v1 + v2 == v1;
    } else {
      var last := |f2| - 1;
      assert (f1 + f2)[..|f1| + last] == f1 + f2[..last];
      assert (v1 + v2)[..|v1| + last] == v1 + v2[..last];
      InsertArgsAppend(f1, v1, f2[..last], v2[..last]);
    }
  }

  /** One field contributes its value, null included, unless it is auto-incremented. */
  lemma InsertArgsSingle(f: FieldMeta, v: Value)
    ensures InsertArgs([f], [v]) == if f.autoIncrement then [] else [v]
  {
    assert [f][..0] == [] && [v][..0] == [];
  }

  /** Without auto-increment fields an insert binds every value, in order. */
  lemma {:induction false} InsertArgsNoAuto(fields: seq<FieldMeta>, values: seq<Value>)
    requires |fields| == |values|
    requires forall k :: 0 <= k < |fields| ==> !fields[k].autoIncrement
    ensures InsertArgs(fields, values) == values
    decreases |fields|
  {
    if fields != [] {
      var last := |fields| - 1;
      InsertArgsNoAuto(fields[..last], values[..last]);
      assert values[..last] + [values[last]] == values;
    }
  }

  /** A prepared statement: its SQL text and the parameters bound so far. */
  class PreparedStatement {
    const sql: string
    var params: map<int, Param>

    constructor (sql: string)
      ensures this.sql == sql && params == map[]
    {
      this.sql := sql;
      params := map[];
    }

    method SetString(index: int, s: string)
      modifies this
      ensures params == old(params)[index := PString(s)]
    {
      params := params[index := PString(s)];
    }

    method SetInt(index: int, i: Int32)
      modifies this
      ensures params == old(params)[index := PInt(i)]
    {
      params := params[index := PInt(i)];
    }

    method SetLong(index: int, l: Int64)
      modifies this
      ensures params == old(params)[index := PLong(l)]
    {
      params := params[index := PLong(l)];
    }

    method SetBigDecimal(index: int, unscaled: int, scale: Int32)
      modifies this
      ensures params == old(params)[index := PBigDecimal(unscaled, scale)]
    {
      params := params[index := PBigDecimal(unscaled, scale)];
    }

    method SetTimestamp(index: int, millis: Int64)
      modifies this
      ensures params == old(params)[index := PTimestamp(millis)]
    {
      params := params[index := PTimestamp(millis)];
    }

    method SetBytes(index: int, bytes: seq<bv8>)
      modifies this
      ensures params == old(params)[index := PBytes(bytes)]
    {
      params := params[index := PBytes(bytes)];
    }

    method SetBoolean(index: int, b: bool)
      modifies this
      ensures params == old(params)[index := PBoolean(b)]
    {
      params := params[index := PBoolean(b)];
    }

    method SetNull(index: int, sqlType: Int32)
      modifies this
      ensures params == old(params)[index := PNull(sqlType)]
    {
      params := params[index := PNull(sqlType)];
    }
  }

  /** Binds `obj` at `argIndex` with the setter matching its class; an unsupported class binds nothing. */
  method SetPreparedStatementParameter(ps: PreparedStatement, argIndex: int, obj: Value)
    modifies ps
    ensures Supported(obj) ==> ps.params == old(ps.params)[argIndex := Bound(obj).value]
    ensures !Supported(obj) ==> ps.params == old(ps.params)
  {
    if obj.StrVal? { ps.SetString(argIndex, obj.s); }
    if obj.IntVal? { ps.SetInt(argIndex, obj.i); }
    if obj.LongVal? { ps.SetLong(argIndex, obj.l); }
    if obj.BigDecimalVal? { ps.SetBigDecimal(argIndex, obj.unscaled, obj.scale); }
    if obj.DateVal? { ps.SetTimestamp(argIndex, obj.millis); }
    if obj.BytesVal? { ps.SetBytes(argIndex, obj.bytes); }
    if obj.BoolVal? { ps.SetBoolean(argIndex, obj.b); }
    if obj.NullVal? { ps.SetNull(argIndex, SQL_TYPE_NULL); }
  }

  /** Binds the arguments of a statement at indices 1, 2, ... in order. */
  method BindArguments(ps: PreparedStatement, args: seq<Value>)
    modifies ps
    ensures ps.params == old(ps.params) + Bindings(args, 1)
  {
    var argIndex := 1;
    var k := 0;
    while k < |args|
      invariant 0 <= k <= |args| && argIndex == k + 1
      invariant ps.params == old(ps.params) + Bindings(args[..k], 1)
    {
      BindingsSnoc(args[..k], args[k], 1);
      assert args[..k + 1] == args[..k] + [args[k]];
      SetPreparedStatementParameter(ps, argIndex, args[k]);
      argIndex := argIndex + 1;
      k := k + 1;
    }
    assert args[..k] == args;
  }

  /**
   * The parameter loop of an insert: `values[k]` is the value the getter of `fields[k]`
   * returns. Auto-increment fields are skipped, a null is bound with an explicit
   * `setNull`, and every other value goes through the binder.
   */
  method BindInsertParameters(ps: PreparedStatement, fields: seq<FieldMeta>, values: seq<Value>)
    requires |fields| == |values|
    modifies ps
    ensures ps.params == old(ps.params) + Bindings(InsertArgs(fields, values), 1)
  {
    var argIndex := 1;
    var k := 0;
    while k < |fields|
      invariant 0 <= k <= |fields|
      invariant argIndex == |InsertArgs(fields[..k], values[..k])| + 1
      invariant ps.params == old(ps.params) + Bindings(InsertArgs(fields[..k], values[..k]), 1)
    {
      ghost var done := InsertArgs(fields[..k], values[..k]);
      assert fields[..k + 1][..k] == fields[..k] && values[..k + 1][..k] == values[..k];
      if fields[k].autoIncrement {
        k := k + 1;
        continue;
      }
      BindingsSnoc(done, values[k], 1);
      var value := values[k];
      if value.NullVal? {
        ps.SetNull(argIndex, SQL_TYPE_NULL);
        argIndex := argIndex + 1;
        k := k + 1;
        continue;
      }
      SetPreparedStatementParameter(ps, argIndex, value);
      argIndex := argIndex + 1;
      k := k + 1;
    }
    assert fields[..k] == fields && values[..k] == values;
  }

  /** Every non-auto-increment field's value is bound at its position among those fields, and reads back. */
  lemma InsertParametersReadBack(fields: seq<FieldMeta>, values: seq<Value>)
    requires |fields| == |values|
    requires AllSupported(values)
    ensures var args := InsertArgs(fields, values);
            |args| == |BoundFields(fields)|
            && forall i :: 1 <= i <= |args| ==>
                 i in Bindings(args, 1) && ReadBack(Bindings(args, 1)[i]) == args[i - 1]
  {
    InsertArgsCount(fields, values);
    InsertArgsSupported(fields, values);
    BindingsReadBack(InsertArgs(fields, values), 1);
  }

  /** The insert values are drawn from the field values, so they are supported when those are. */
  lemma {:induction false} InsertArgsSupported(fields: seq<FieldMeta>, values: seq<Value>)
    requires |fields| == |values|
    requires AllSupported(values)
    ensures AllSupported(InsertArgs(fields, values))
    decreases |fields|
  {
    if fields != [] {
      var last := |fields| - 1;
      InsertArgsSupported(fields[..last], values[..last]);
    }
  }
}
