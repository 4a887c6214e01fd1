/**
 * The audit rows EOI writes after inserts and updates (EOI.createAudit and the audit part
 * of EOI._update): the recursion guard on the Audit class itself, the object-key rule, the
 * six statement arguments, and the `<NULL>` rendering of update deltas.
 */
module Audit {
  import opened Wrappers
  import opened Numerals
  import opened ColumnDef
  import opened Parameters

  /** Audits of the audit class itself are never written. */
  const AUDIT_CLASS_NAME := "Audit"

  const AUDIT_SQL :=
    "insert into audits (object_key, event_time, event_type, field_name, old_value, new_value) values (?,?,?,?,?,?);"

  const INSERT_EVENT := "INSERT"
  const UPDATE_EVENT := "UPDATE"

  /** How a null old or new value of an updated field is written into its audit row. */
  const NULL_TEXT := "<NULL>"

  /**
   * One call of `createAudit`: `objectText` is the audited object's `toString()`, `None`
   * when no object is passed; the last three are `None` for Java's null.
   */
  datatype AuditRequest = AuditRequest(
    className: string,
    eventType: string,
    objectId: Int64,
    objectText: Option<string>,
    fieldName: Option<string>,
    oldValue: Option<string>,
    newValue: Option<string>)

  /** The object key: the object's text, else `className:objectId` for a non-zero id, else empty. */
  function ObjectKey(className: string, objectId: Int64, objectText: Option<string>): string {
    if objectText.Some? then objectText.value
    else if objectId != 0 then QualifiedName(className, IntToString(objectId as int))
    else ""
  }

  /** Reads `className:objectId` back out of an object key. */
  function ParseObjectKey(key: string): Option<(string, int)> {
    var colon := IndexOf(key, ':');
    if colon == |key| then None
    else
      match ParseInt(key[colon + 1..])
      case Some(id) => Some((key[..colon], id))
      case None => None
  }

  /** A key built from a class name and an id names them both. */
  lemma ObjectKeyRoundTrip(className: string, objectId: Int64)
    requires ':' !in className && objectId != 0
    ensures ParseObjectKey(ObjectKey(className, objectId, None)) == Some((className, objectId as int))
  {
    var digits := IntToString(objectId as int);
    var key := QualifiedName(className, digits);
    ColonPosition(className, digits);
    assert key[..|className|] == className;
    assert key[|className| + 1..] == digits;
    IntToStringRoundTrip(objectId as int);
  }

  /** Two audited objects without text and with non-zero ids share a key only when class and id agree. */
  lemma ObjectKeyInjective(c1: string, id1: Int64, c2: string, id2: Int64)
    requires ':' !in c1 && ':' !in c2 && id1 != 0 && id2 != 0
    requires ObjectKey(c1, id1, None) == ObjectKey(c2, id2, None)
    ensures c1 == c2 && id1 == id2
  {
    ObjectKeyRoundTrip(c1, id1);
    ObjectKeyRoundTrip(c2, id2);
  }

  /** The key is empty exactly when the object's text is empty, or there is no object and the id is 0. */
  lemma ObjectKeyEmpty(className: string, objectId: Int64, objectText: Option<string>)
    ensures ObjectKey(className, objectId, objectText) == "" <==>
      objectText == Some("") || (objectText.None? && objectId == 0)
  {
    if objectText.None? && objectId != 0 {
      assert |QualifiedName(className, IntToString(objectId as int))| > 0;
    }
  }

  /** A string argument, with Java's null bound as null. */
  function TextArg(t: Option<string>): Value {
    if t.Some? then StrVal(t.value) else NullVal
  }

  /** The six arguments of the audit insert, in the order of its placeholders. */
  function AuditArgs(r: AuditRequest, now: Int64): seq<Value> {
    [StrVal(ObjectKey(r.className, r.objectId, r.objectText)), DateVal(now), StrVal(r.eventType),
     TextArg(r.fieldName), TextArg(r.oldValue), TextArg(r.newValue)]
  }

  /** The audit statement's arguments, or `None` when the recursion guard suppresses it. */
  function AuditStatement(r: AuditRequest, now: Int64): (args: Option<seq<Value>>)
    ensures args.Some? ==> |args.value| == 6
  {
    if r.className == AUDIT_CLASS_NAME then None else Some(AuditArgs(r, now))
  }

  /** The recursion guard: nothing is written for the audit class, and a statement is written for every other class. */
  lemma AuditGuard(r: AuditRequest, now: Int64)
    ensures AuditStatement(r, now).None? <==> r.className == AUDIT_CLASS_NAME
  {
  }

  /**
   * Every audit parameter is bound: index 1 holds the key, 2 the timestamp, 3 the event
   * type, and 4 to 6 the field name and the two values, each bound null when absent.
   */
  lemma AuditParameters(r: AuditRequest, now: Int64)
    ensures var b := Bindings(AuditArgs(r, now), 1);
            b.Keys == {1, 2, 3, 4, 5, 6}
            && b[1] == PString(ObjectKey(r.className, r.objectId, r.objectText))
            && b[2] == PTimestamp(now)
            && b[3] == PString(r.eventType)
            && (r.fieldName.None? <==> b[4] == PNull(SQL_TYPE_NULL))
            && (r.oldValue.None? <==> b[5] == PNull(SQL_TYPE_NULL))
            && (r.newValue.None? <==> b[6] == PNull(SQL_TYPE_NULL))
            && (r.fieldName.Some? ==> b[4] == PString(r.fieldName.value))
            && (r.oldValue.Some? ==> b[5] == PString(r.oldValue.value))
            && (r.newValue.Some? ==> b[6] == PString(r.newValue.value))
  {
    var args := AuditArgs(r, now);
    var b := Bindings(args, 1);
    forall i | i in b
      ensures 1 <= i <= 6
    {
      BindingsAt(args, 1, i);
    }
    forall i | 1 <= i <= 6
      ensures i in b && b[i] == Bound(args[i - 1]).value
    {
      BindingsAt(args, 1, i);
    }
  }

  /** The text an updated field's old or new value is audited as. */
  function RenderDelta(v: Option<string>): string {
    if v.None? then NULL_TEXT else v.value
  }

  /** Reads an audited delta back, taking `<NULL>` for null. */
  function ReadDelta(s: string): Option<string> {
    if s == NULL_TEXT then None else Some(s)
  }

  /** Rendering reads back for every value except the text `<NULL>` itself. */
  lemma RenderDeltaRoundTrip(v: Option<string>)
    ensures v != Some(NULL_TEXT) ==> ReadDelta(RenderDelta(v)) == v
    ensures RenderDelta(v) == NULL_TEXT <==> v.None? || v == Some(NULL_TEXT)
  {
  }

  /** A null value and the text `<NULL>` leave the same audit row: the rendering is not injective. */
  lemma RenderDeltaAmbiguous()
    ensures RenderDelta(None) == RenderDelta(Some(NULL_TEXT))
    ensures None != Some(NULL_TEXT)
  {
  }

  /** One field an update changed, its values given by their `toString()` text (`None` for null). */
  datatype UpdatedField = UpdatedField(fieldName: string, oldValue: Option<string>, newValue: Option<string>)

  /** The audit an update writes for one changed field of `objectText`. */
  function UpdateAudit(className: string, objectText: string, f: UpdatedField): AuditRequest {
    AuditRequest(className, UPDATE_EVENT, 0, Some(objectText), Some(f.fieldName),
                 Some(RenderDelta(f.oldValue)), Some(RenderDelta(f.newValue)))
  }

  /** The audit an insert writes for the generated key. */
  function InsertAudit(className: string, generatedKey: Int64): AuditRequest {
    AuditRequest(className, INSERT_EVENT, generatedKey, None, None, None, None)
  }

  /**
   * An update audit is keyed by the object's text and binds the field name and both
   * rendered values as strings, never as null.
   */
  lemma UpdateAuditShape(className: string, objectText: string, f: UpdatedField, now: Int64)
    ensures var r := UpdateAudit(className, objectText, f);
            AuditArgs(r, now) ==
              [StrVal(objectText), DateVal(now), StrVal(UPDATE_EVENT), StrVal(f.fieldName),
               StrVal(RenderDelta(f.oldValue)), StrVal(RenderDelta(f.newValue))]
    ensures ReadDelta(RenderDelta(f.oldValue)) == f.oldValue || f.oldValue == Some(NULL_TEXT)
  {
  }

  /** An insert audit is keyed `className:key`, or by the empty text when the key is 0, with null field name and values. */
  lemma InsertAuditShape(className: string, generatedKey: Int64, now: Int64)
    ensures var args := AuditArgs(InsertAudit(className, generatedKey), now);
            args[0] == StrVal(if generatedKey == 0 then "" else className + ":" + IntToString(generatedKey as int))
            && args[3] == NullVal && args[4] == NullVal && args[5] == NullVal
  {
  }
}
