/**
 * Column metadata of one mapped field (DBMapField.java) and the column definition it
 * synthesises for schema creation: `<type-clause>[ PRIMARY KEY][ NOT NULL]`, or the field's
 * declared definition verbatim.
 */
module ColumnDef {
  import opened Wrappers
  import opened Numerals

  // The type names a mapped field can declare.
  const STRING := "STRING"
  const INTEGER := "INTEGER"
  const LONG := "LONG"
  const DECIMAL := "DECIMAL"
  const TIMESTAMP := "TIMESTAMP"
  const BLOB := "BLOB"
  const BOOLEAN := "BOOLEAN"

  // Sizes written back into a field whose own size is 0.
  const DEFAULT_LENGTH := 255
  const DEFAULT_PRECISION := 24
  const DEFAULT_SCALE := 2

  const PRIMARY_KEY_SUFFIX := " PRIMARY KEY"
  const NOT_NULL_SUFFIX := " NOT NULL"

  /** The value of every field of a DBMapField that the column definition reads or writes. */
  datatype FieldMeta = FieldMeta(
    className: string,
    fieldName: string,
    columnName: string,
    typeName: string,
    length: int,
    precision: int,
    scale: int,
    nullable: bool,
    primaryKey: bool,
    autoIncrement: bool,
    declaredColumnDefinition: string)

  /** The type clause of a column definition; `Untyped` is the empty clause of an unknown type name. */
  datatype ColumnType =
    | Varchar2(length: int)
    | Integer
    | Bigint
    | Decimal(precision: int, scale: int)
    | Timestamp
    | Blob
    | Boolean
    | Untyped

  /** What a synthesised column definition says: its type clause and its two flags. */
  datatype ColumnSpec = ColumnSpec(columnType: ColumnType, primaryKey: bool, notNull: bool)

  /** `prefix + ":" + suffix`, the shape of `toString` and of an audit object key. */
  function QualifiedName(prefix: string, suffix: string): string {
    prefix + ":" + suffix
  }

  /** A name qualified by a colon-free prefix determines both of its parts. */
  lemma QualifiedNameInjective(a: string, b: string, c: string, d: string)
    requires ':' !in a && ':' !in c
    ensures QualifiedName(a, b) == QualifiedName(c, d) ==> a == c && b == d
  {
    var s, t := QualifiedName(a, b), QualifiedName(c, d);
    if s == t {
      ColonPosition(a, b);
      ColonPosition(c, d);
      assert |a| == |c|;
      assert a == s[..|a|] && c == t[..|c|];
      assert b == s[|a| + 1..] && d == t[|c| + 1..];
    }
  }

  /** In a name qualified by a colon-free prefix, the first colon ends the prefix. */
  lemma ColonPosition(a: string, b: string)
    requires ':' !in a
    ensures IndexOf(QualifiedName(a, b), ':') == |a|
  {
    IndexOfAfter(a, b, ':');
  }

  /** The seven type names are pairwise distinct, so at most one clause of the type section applies. */
  lemma TypeNamesDistinct()
    ensures STRING != INTEGER && STRING != LONG && STRING != DECIMAL && STRING != TIMESTAMP
    ensures STRING != BLOB && STRING != BOOLEAN
    ensures INTEGER != LONG && INTEGER != DECIMAL && INTEGER != TIMESTAMP && INTEGER != BLOB
    ensures INTEGER != BOOLEAN
    ensures LONG != DECIMAL && LONG != TIMESTAMP && LONG != BLOB && LONG != BOOLEAN
    ensures DECIMAL != TIMESTAMP && DECIMAL != BLOB && DECIMAL != BOOLEAN
    ensures TIMESTAMP != BLOB && TIMESTAMP != BOOLEAN && BLOB != BOOLEAN
  {
    assert INTEGER[0] != DECIMAL[0] && INTEGER[0] != BOOLEAN[0] && DECIMAL[0] != BOOLEAN[0];
    assert LONG[0] != BLOB[0];
  }

  /** Appending to or after the empty text changes nothing. */
  lemma EmptyConcat()
    ensures forall s: string :: "" + s == s
    ensures forall s: string :: s + "" == s
  {
  }

  /** The three sizes of a field. */
  datatype Sizes = Sizes(length: int, precision: int, scale: int)

  /** The sizes after those a definition needs are defaulted. */
  function DefaultSizes(m: FieldMeta): Sizes {
    if |m.declaredColumnDefinition| > 0 then Sizes(m.length, m.precision, m.scale)
    else if m.typeName == STRING then
      Sizes(if m.length == 0 then DEFAULT_LENGTH else m.length, m.precision, m.scale)
    else if m.typeName == DECIMAL then
      Sizes(m.length,
            if m.precision == 0 then DEFAULT_PRECISION else m.precision,
            if m.scale == 0 then DEFAULT_SCALE else m.scale)
    else Sizes(m.length, m.precision, m.scale)
  }

  /** The record after the sizes a definition needs are defaulted. */
  function Defaulted(m: FieldMeta): FieldMeta {
    var z := DefaultSizes(m);
    m.(length := z.length, precision := z.precision, scale := z.scale)
  }

  /** The type clause a type name selects, with the given sizes. */
  function ColumnTypeOf(typeName: string, z: Sizes): ColumnType {
    if typeName == STRING then Varchar2(z.length)
    else if typeName == INTEGER then Integer
    else if typeName == LONG then Bigint
    else if typeName == DECIMAL then Decimal(z.precision, z.scale)
    else if typeName == TIMESTAMP then Timestamp
    else if typeName == BLOB then Blob
    else if typeName == BOOLEAN then Boolean
    else Untyped
  }

  function TypeClause(t: ColumnType): string {
    match t
    case Varchar2(n) => "varchar2(" + IntToString(n) + ")"
    case Integer => "integer"
    case Bigint => "bigint"
    case Decimal(p, s) => "decimal(" + IntToString(p) + "," + IntToString(s) + ")"
    case Timestamp => "timestamp"
    case Blob => "blob"
    case Boolean => "boolean"
    case Untyped => ""
  }

  function Render(c: ColumnSpec): string {
    var clause := TypeClause(c.columnType);
    var keyed := if c.primaryKey then clause + PRIMARY_KEY_SUFFIX else clause;
    if c.notNull then keyed + NOT_NULL_SUFFIX else keyed
  }

  /** What the synthesised definition of a record without a declared definition says. */
  function SpecOf(m: FieldMeta): ColumnSpec {
    ColumnSpec(ColumnTypeOf(m.typeName, DefaultSizes(m)), m.primaryKey, !m.nullable)
  }

  /** A type name equal to one of the seven constants differs from the other six. */
  lemma OneTypeName(t: string)
    ensures t == STRING ==> t != INTEGER && t != LONG && t != DECIMAL && t != TIMESTAMP && t != BLOB && t != BOOLEAN
    ensures t == INTEGER ==> t != STRING && t != LONG && t != DECIMAL && t != TIMESTAMP && t != BLOB && t != BOOLEAN
    ensures t == LONG ==> t != STRING && t != INTEGER && t != DECIMAL && t != TIMESTAMP && t != BLOB && t != BOOLEAN
    ensures t == DECIMAL ==> t != STRING && t != INTEGER && t != LONG && t != TIMESTAMP && t != BLOB && t != BOOLEAN
    ensures t == TIMESTAMP ==> t != STRING && t != INTEGER && t != LONG && t != DECIMAL && t != BLOB && t != BOOLEAN
    ensures t == BLOB ==> t != STRING && t != INTEGER && t != LONG && t != DECIMAL && t != TIMESTAMP && t != BOOLEAN
    ensures t == BOOLEAN ==> t != STRING && t != INTEGER && t != LONG && t != DECIMAL && t != TIMESTAMP && t != BLOB
  {
    TypeNamesDistinct();
  }

  /** The text `getColumnDefinition` returns for a record. */
  function DefinitionText(m: FieldMeta): string {
    if |m.declaredColumnDefinition| > 0 then m.declaredColumnDefinition else Render(SpecOf(m))
  }

  // ---- Reading a column definition back ----

  function StripSuffix(s: string, suffix: string): (string, bool) {
    if |suffix| <= |s| && s[|s| - |suffix|..] == suffix then (s[..|s| - |suffix|], true)
    else (s, false)
  }

  /** The position of the first `c` in `s`, or `|s|` when there is none. */
  function IndexOf(s: string, c: char): (k: nat)
    ensures k <= |s|
    ensures forall j :: 0 <= j < k ==> s[j] != c
    ensures k < |s| ==> s[k] == c
  {
    if s == [] then 0 else if s[0] == c then 0 else 1 + IndexOf(s[1..], c)
  }

  predicate HasPrefix(s: string, prefix: string) {
    |prefix| <= |s| && s[..|prefix|] == prefix
  }

  /** Reads `varchar2(N)`. */
  function ParseVarchar(s: string): Option<ColumnType> {
    if |s| > 10 && HasPrefix(s, "varchar2(") && s[|s| - 1] == ')' then
      match ParseInt(s[9..|s| - 1])
      case Some(n) => Some(Varchar2(n))
      case None => None
    else None
  }

  /** Reads `decimal(P,S)`. */
  function ParseDecimal(s: string): Option<ColumnType> {
    if |s| > 9 && HasPrefix(s, "decimal(") && s[|s| - 1] == ')' then
      var body := s[8..|s| - 1];
      var comma := IndexOf(body, ',');
      if comma == |body| then None
      else
        match (ParseInt(body[..comma]), ParseInt(body[comma + 1..]))
        case (Some(p), Some(q)) => Some(Decimal(p, q))
        case _ => None
    else None
  }

  /** Reads one of the type clauses that carry no size. */
  function ParseFixedType(s: string): Option<ColumnType> {
    if s == "" then Some(Untyped)
    else if s == "integer" then Some(Integer)
    else if s == "bigint" then Some(Bigint)
    else if s == "timestamp" then Some(Timestamp)
    else if s == "blob" then Some(Blob)
    else if s == "boolean" then Some(Boolean)
    else None
  }

  function ParseTypeClause(s: string): Option<ColumnType> {
    if HasPrefix(s, "varchar2(") then ParseVarchar(s)
    else if HasPrefix(s, "decimal(") then ParseDecimal(s)
    else ParseFixedType(s)
  }

  /** Reads a synthesised column definition back into what it says. */
  function ParseDefinition(s: string): Option<ColumnSpec> {
    var (withoutNotNull, notNull) := StripSuffix(s, NOT_NULL_SUFFIX);
    var (clause, primaryKey) := StripSuffix(withoutNotNull, PRIMARY_KEY_SUFFIX);
    match ParseTypeClause(clause)
    case Some(t) => Some(ColumnSpec(t, primaryKey, notNull))
    case None => None
  }

  lemma StripAppendedSuffix(x: string, suffix: string)
    ensures StripSuffix(x + suffix, suffix) == (x, true)
  {
    assert (x + suffix)[|x|..] == suffix;
    assert (x + suffix)[..|x|] == x;
  }

  lemma StripAbsentSuffix(x: string, suffix: string)
    requires |suffix| > 0
    requires |x| == 0 || x[|x| - 1] != suffix[|suffix| - 1]
    ensures StripSuffix(x, suffix) == (x, false)
  {
  }

  lemma IndexOfAfter(a: string, b: string, c: char)
    requires c !in a
    ensures IndexOf(a + [c] + b, c) == |a|
  {
    var s := a + [c] + b;
    assert s[|a|] == c;
    assert forall j :: 0 <= j < |a| ==> s[j] == a[j];
  }

  lemma NoCommaInNumber(i: int)
    ensures ',' !in IntToString(i)
  {
    if ',' in IntToString(i) {
      var k :| 0 <= k < |IntToString(i)| && IntToString(i)[k] == ',';
      IntToStringCharacters(i, k);
    }
  }

  lemma VarcharRoundTrip(n: int)
    ensures ParseTypeClause(TypeClause(Varchar2(n))) == Some(Varchar2(n))
  {
    var digits := IntToString(n);
    var s := TypeClause(Varchar2(n));
    assert s == "varchar2(" + digits + ")";
    assert HasPrefix(s, "varchar2(") && s[|s| - 1] == ')';
    assert s[9..|s| - 1] == digits;
    IntToStringRoundTrip(n);
  }

  lemma DecimalBodyRoundTrip(p: int, q: int)
    ensures ParseDecimal("decimal(" + IntToString(p) + "," + IntToString(q) + ")") == Some(Decimal(p, q))
  {
    var pd, qd := IntToString(p), IntToString(q);
    var s := "decimal(" + pd + "," + qd + ")";
    assert HasPrefix(s, "decimal(") && s[|s| - 1] == ')';
    var body := s[8..|s| - 1];
    assert body == pd + [','] + qd;
    NoCommaInNumber(p);
    IndexOfAfter(pd, qd, ',');
    assert body[..|pd|] == pd && body[|pd| + 1..] == qd;
    IntToStringRoundTrip(p);
    IntToStringRoundTrip(q);
  }

  lemma DecimalRoundTrip(p: int, q: int)
    ensures ParseTypeClause(TypeClause(Decimal(p, q))) == Some(Decimal(p, q))
  {
    var s := TypeClause(Decimal(p, q));
    assert s[0] == 'd';
    assert !HasPrefix(s, "varchar2(");
    DecimalBodyRoundTrip(p, q);
  }

  /** Every type clause is read back as the type it renders. */
  lemma TypeClauseRoundTrip(t: ColumnType)
    ensures ParseTypeClause(TypeClause(t)) == Some(t)
  {
    match t
    case Varchar2(n) => VarcharRoundTrip(n);
    case Decimal(p, q) => DecimalRoundTrip(p, q);
    case Timestamp =>
      assert "timestamp"[0] == 't';
      assert !HasPrefix("timestamp", "varchar2(") && !HasPrefix("timestamp", "decimal(");
    case _ =>
  }

  /** A type clause never ends the way either flag suffix ends. */
  lemma TypeClauseEnding(t: ColumnType)
    ensures var s := TypeClause(t); |s| == 0 || (s[|s| - 1] != 'Y' && s[|s| - 1] != 'L')
  {
  }

  /** A rendered definition is read back as exactly what it says. */
  lemma {:induction false} RenderRoundTrip(c: ColumnSpec)
    ensures ParseDefinition(Render(c)) == Some(c)
  {
    var clause := TypeClause(c.columnType);
    var pk := if c.primaryKey then PRIMARY_KEY_SUFFIX else "";
    var withPk := clause + pk;
    TypeClauseEnding(c.columnType);
    if c.notNull {
      StripAppendedSuffix(withPk, NOT_NULL_SUFFIX);
    } else {
      assert Render(c) == withPk;
      StripAbsentSuffix(withPk, NOT_NULL_SUFFIX);
    }
    if c.primaryKey {
      StripAppendedSuffix(clause, PRIMARY_KEY_SUFFIX);
    } else {
      assert withPk == clause;
      StripAbsentSuffix(clause, PRIMARY_KEY_SUFFIX);
    }
    TypeClauseRoundTrip(c.columnType);
  }

  // ---- Properties of the synthesised definition ----

  /** A declared definition is returned as it is, with no flag suffix and no defaulting. */
  lemma DeclaredDefinitionVerbatim(m: FieldMeta)
    requires |m.declaredColumnDefinition| > 0
    ensures DefinitionText(m) == m.declaredColumnDefinition
    ensures Defaulted(m) == m
  {
  }

  /**
   * Without a declared definition, the text reads back as the defaulted type clause,
   * ` PRIMARY KEY` exactly when the field is a primary key and ` NOT NULL` exactly when it
   * is not nullable.
   */
  lemma SynthesisedDefinition(m: FieldMeta)
    requires |m.declaredColumnDefinition| == 0
    ensures ParseDefinition(DefinitionText(m)) == Some(ColumnSpec(ColumnTypeOf(m.typeName, DefaultSizes(m)), m.primaryKey, !m.nullable))
  {
    RenderRoundTrip(SpecOf(m));
  }

  lemma DefaultNumbers()
    ensures IntToString(DEFAULT_LENGTH) == "255"
    ensures IntToString(DEFAULT_PRECISION) == "24"
    ensures IntToString(DEFAULT_SCALE) == "2"
  {
    assert NatToString(25) == NatToString(2) + ['5'];
    assert NatToString(255) == NatToString(25) + ['5'];
    assert NatToString(24) == NatToString(2) + ['4'];
  }

  /** A STRING column: length 0 becomes 255, any other length is kept, and the clause names it. */
  lemma StringColumn(m: FieldMeta)
    requires |m.declaredColumnDefinition| == 0 && m.typeName == STRING
    ensures m.length == 0 ==>
              Defaulted(m) == m.(length := 255) && TypeClause(SpecOf(m).columnType) == "varchar2(255)"
    ensures m.length != 0 ==>
              Defaulted(m) == m && TypeClause(SpecOf(m).columnType) == "varchar2(" + IntToString(m.length) + ")"
  {
    DefaultNumbers();
  }

  /** A DECIMAL column: precision 0 becomes 24 and scale 0 becomes 2, each on its own. */
  lemma DecimalColumn(m: FieldMeta)
    requires |m.declaredColumnDefinition| == 0 && m.typeName == DECIMAL
    ensures var p := if m.precision == 0 then 24 else m.precision;
            var s := if m.scale == 0 then 2 else m.scale;
            Defaulted(m) == m.(precision := p, scale := s)
            && TypeClause(SpecOf(m).columnType) == "decimal(" + IntToString(p) + "," + IntToString(s) + ")"
    ensures m.precision == 0 && m.scale == 0 ==> TypeClause(SpecOf(m).columnType) == "decimal(24,2)"
  {
    DefaultNumbers();
  }

  /** The five fixed type names and the unknown ones. */
  lemma FixedColumnTypes(m: FieldMeta)
    requires |m.declaredColumnDefinition| == 0
    ensures m.typeName == INTEGER ==> TypeClause(SpecOf(m).columnType) == "integer"
    ensures m.typeName == LONG ==> TypeClause(SpecOf(m).columnType) == "bigint"
    ensures m.typeName == TIMESTAMP ==> TypeClause(SpecOf(m).columnType) == "timestamp"
    ensures m.typeName == BLOB ==> TypeClause(SpecOf(m).columnType) == "blob"
    ensures m.typeName == BOOLEAN ==> TypeClause(SpecOf(m).columnType) == "boolean"
    ensures m.typeName !in {STRING, INTEGER, LONG, DECIMAL, TIMESTAMP, BLOB, BOOLEAN} ==>
      TypeClause(SpecOf(m).columnType) == "" && Defaulted(m) == m
  {
  }

  /** Synthesising twice gives the same text and writes nothing new the second time. */
  lemma DefinitionIdempotent(m: FieldMeta)
    ensures Defaulted(Defaulted(m)) == Defaulted(m)
    ensures DefinitionText(Defaulted(m)) == DefinitionText(m)
  {
  }

  /** Only the three sizes can differ after defaulting. */
  lemma DefaultingTouchesOnlySizes(m: FieldMeta)
    ensures Defaulted(m).(length := m.length, precision := m.precision, scale := m.scale) == m
  {
  }

  /** One mapped field of a domain class. */
  class DBMapField {
    var className: string
    var fieldName: string
    var columnName: string
    var typeName: string
    var length: int
    var precision: int
    var scale: int
    var nullable: bool
    var primaryKey: bool
    var autoIncrement: bool
    var declaredColumnDefinition: string

    constructor (m: FieldMeta)
      ensures Meta() == m
    {
      className, fieldName, columnName, typeName := m.className, m.fieldName, m.columnName, m.typeName;
      length, precision, scale := m.length, m.precision, m.scale;
      nullable, primaryKey, autoIncrement := m.nullable, m.primaryKey, m.autoIncrement;
      declaredColumnDefinition := m.declaredColumnDefinition;
    }

    function Meta(): FieldMeta
      reads this
    {
      FieldMeta(className, fieldName, columnName, typeName, length, precision, scale,
                nullable, primaryKey, autoIncrement, declaredColumnDefinition)
    }

    function ToString(): string
      reads this
    {
      QualifiedName(className, fieldName)
    }

    /** `toString` is the class name, a colon and the field name; the first colon ends the class name when it has none. */
    lemma ToStringParts()
      ensures |ToString()| == |className| + 1 + |fieldName|
      ensures ToString()[..|className|] == className && ToString()[|className|] == ':'
      ensures ToString()[|className| + 1..] == fieldName
      ensures ':' !in className ==> IndexOf(ToString(), ':') == |className|
    {
      if ':' !in className {
        ColonPosition(className, fieldName);
      }
    }

    /**
     * Builds the column definition clause by clause, writing default sizes back into
     * `length`, `precision` and `scale` on the way.
     */
    method GetColumnDefinition() returns (columnDef: string)
      modifies this`length, this`precision, this`scale
      ensures columnDef == DefinitionText(old(Meta()))
      ensures Sizes(length, precision, scale) == DefaultSizes(old(Meta()))
    {
      if |declaredColumnDefinition| > 0 {
        return declaredColumnDefinition;
      }

      // The type name and the two flags are read once; this method writes none of them.
      var t, isKey, isNullable := typeName, primaryKey, nullable;
      OneTypeName(t);
      ghost var m := Meta();
      ghost var sizes := DefaultSizes(m);
      columnDef := "";
      if t == STRING {
        if length == 0 {
          length := DEFAULT_LENGTH;
        }
        columnDef := columnDef + "varchar2(" + IntToString(length) + ")";
        assert columnDef == "varchar2(" + IntToString(length) + ")" by { EmptyConcat(); }
      }
      if t == INTEGER {
        columnDef := columnDef + "integer";
        assert columnDef == "integer" by { EmptyConcat(); }
      }
      if t == LONG {
        columnDef := columnDef + "bigint";
        assert columnDef == "bigint" by { EmptyConcat(); }
      }
      if t == DECIMAL {
        if precision == 0 {
          precision := DEFAULT_PRECISION;
        }
        if scale == 0 {
          scale := DEFAULT_SCALE;
        }
        columnDef := columnDef + "decimal(" + IntToString(precision) + "," + IntToString(scale) + ")";
        assert columnDef == "decimal(" + IntToString(precision) + "," + IntToString(scale) + ")" by { EmptyConcat(); }
      }
      if t == TIMESTAMP {
        columnDef := columnDef + "timestamp";
        assert columnDef == "timestamp" by { EmptyConcat(); }
      }
      if t == BLOB {
        columnDef := columnDef + "blob";
        assert columnDef == "blob" by { EmptyConcat(); }
      }
      if t == BOOLEAN {
        columnDef := columnDef + "boolean";
        assert columnDef == "boolean" by { EmptyConcat(); }
      }
      assert Sizes(length, precision, scale) == sizes;
      assert columnDef == TypeClause(ColumnTypeOf(m.typeName, sizes));

      if isKey {
        columnDef := columnDef + PRIMARY_KEY_SUFFIX;
      }
      if !isNullable {
        columnDef := columnDef + NOT_NULL_SUFFIX;
      }
    }
  }

  /**
   * Asking a field for its column definition twice gives the same text both times; the
   * first call leaves the record defaulted and the second writes nothing new.
   */
  method ColumnDefinitionStable(f: DBMapField) returns (first: string, second: string)
    modifies f
    ensures first == second == DefinitionText(old(f.Meta()))
    ensures f.Meta() == Defaulted(old(f.Meta()))
  {
    ghost var m := f.Meta();
    first := f.GetColumnDefinition();
    assert f.Meta() == Defaulted(m);
    second := f.GetColumnDefinition();
    DefinitionIdempotent(m);
  }
}
