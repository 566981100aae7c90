/** The records the extension passes between its parts (src/types.ts), and
    the JavaScript values that driver rows and parsed JSON carry. */
module Types {
  import opened Wrappers

  /** A value stored under a key of a row object. `Other` stands for every
      non-string value a driver returns (numbers, booleans, dates, buffers);
      it carries the text `String(v)` gives for it. */
  datatype JsVal = Undefined | Null | Str(s: string) | Other(shown: string)

  /** `String(v)`. */
  function Stringify(v: JsVal): string
  {
    match v
    case Undefined => "undefined"
    case Null => "null"
    case Str(s) => s
    case Other(shown) => shown
  }

  /** `v === null || v === undefined`, the test behind `??`. */
  predicate IsNullish(v: JsVal) { v.Undefined? || v.Null? }

  /** `v ?? d`. */
  function OrElse(v: JsVal, d: JsVal): JsVal { if IsNullish(v) then d else v }

  /** A JavaScript truthiness test on an optional string: absent and "" are
      both falsy. */
  predicate Truthy(s: Option<string>) { s.Some? && s.value != "" }

  /** One property of a row object. */
  datatype Field = Field(key: string, value: JsVal)

  /** A row object (`Record<string, unknown>`) as its properties in insertion
      order. */
  type Row = seq<Field>

  /** `row[key]`: the value of the first property named `key`, or
      `undefined` when there is none. */
  function Get(row: Row, key: string): (v: JsVal)
    ensures (forall i :: 0 <= i < |row| ==> row[i].key != key) ==> v == Undefined
  {
    if |row| == 0 then Undefined
    else if row[0].key == key then row[0].value
    else Get(row[1..], key)
  }

  /** The property names of a row, in order. */
  function Keys(row: Row): seq<string>
  {
    seq(|row|, i requires 0 <= i < |row| => row[i].key)
  }

  /** No two elements of `s` are equal (the keys of a JavaScript object, the
      keys of a `Map`). */
  predicate Distinct<T(==)>(s: seq<T>)
  {
    forall i, j :: 0 <= i < j < |s| ==> s[i] != s[j]
  }

  /** A column of a result set: its name and declared type. */
  datatype ColumnInfo = ColumnInfo(name: string, declared: string)

  function Names(columns: seq<ColumnInfo>): seq<string>
  {
    seq(|columns|, i requires 0 <= i < |columns| => columns[i].name)
  }

  /** One normalised result set of a statement batch. */
  datatype SqlResultSet = SqlResultSet(
    columns: seq<ColumnInfo>,
    rows: seq<Row>,
    rowCount: int,
    executionTime: int)

  /** A server message shown under a result. */
  datatype MessageType = Info | Warning | Error
  datatype SqlMessage = SqlMessage(kind: MessageType, text: string)

  datatype AuthType = SqlLogin | Windows
  datatype ProfileSource = Local | MssqlImport

  /** A saved connection. */
  datatype ConnectionProfile = ConnectionProfile(
    id: string,
    name: string,
    server: string,
    port: int,
    database: string,
    authenticationType: AuthType,
    user: Option<string>,
    password: Option<string>,
    encrypt: bool,
    trustServerCertificate: bool,
    source: Option<ProfileSource>,
    groupId: Option<string>)

  /** A named folder of connections in the sidebar. */
  datatype ServerGroup = ServerGroup(id: string, name: string)

  /** A schema object listed in the object explorer. */
  datatype DbObjectInfo = DbObjectInfo(schema: string, name: string, kind: string)
}
