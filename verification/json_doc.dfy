/**
 * The bot's persistent state is `src/data.json`, a JSON document read with
 * `JSON.parse` and written back with `JSON.stringify`. This module gives JSON
 * values, the in-memory top-level value that the event handlers and commands
 * mutate, JavaScript's truthiness and property access on them, and the file
 * operations the handlers perform.
 */
module JsonDoc {
  import opened Wrappers
  import Text

  /** A JSON value; numbers are integers in this model. */
  datatype Json =
    | JNull
    | JBool(b: bool)
    | JNum(n: int)
    | JStr(s: string)
    | JArr(items: seq<Json>)
    | JObj(fields: map<string, Json>)

  /** JavaScript truthiness; `None` stands for `undefined`. */
  predicate Truthy(v: Option<Json>) {
    match v
    case None => false
    case Some(j) =>
      match j
      case JNull => false
      case JBool(b) => b
      case JNum(n) => n != 0
      case JStr(s) => s != ""
      case _ => true
  }

  /**
   * `j?.[key]` for the keys the bot reads: only an object has them; `undefined`,
   * `null`, primitives and arrays give `undefined`.
   */
  function Member(j: Option<Json>, key: string): (r: Option<Json>)
    ensures r.Some? ==> j.Some? && j.value.JObj? && key in j.value.fields
  {
    if j.Some? && j.value.JObj? && key in j.value.fields then Some(j.value.fields[key]) else None
  }

  /** `a || b`. */
  function Or(a: Option<Json>, b: Option<Json>): (r: Option<Json>)
    ensures Truthy(a) ==> r == a
    ensures !Truthy(a) ==> r == b
  {
    if Truthy(a) then a else b
  }

  /** `String(x)`, as used when a value is interpolated into a message. */
  function StringOf(v: Option<Json>): string {
    match v
    case None => "undefined"
    case Some(j) => JsonText(j)
  }

  function JsonText(j: Json): string {
    match j
    case JNull => "null"
    case JBool(b) => if b then "true" else "false"
    case JNum(n) => Text.IntToString(n)
    case JStr(s) => s
    case JArr(items) => ItemsText(items)
    case JObj(_) => "[object Object]"
  }

  /** `String(array)`: elements joined by commas, `null` elements as empty text. */
  function ItemsText(items: seq<Json>): string
    decreases items
  {
    if items == [] then ""
    else
      var head := if items[0] == JNull then "" else JsonText(items[0]);
      if |items| == 1 then head else head + "," + ItemsText(items[1..])
  }

  /**
   * The top-level value `JSON.parse` returned, as the program holds it in
   * memory. An array keeps the named properties assigned to it, which
   * `JSON.stringify` then leaves out.
   */
  datatype Top =
    | Object(props: map<string, Json>)
    | Array(items: seq<Json>, props: map<string, Json>)
    | Null
    | Primitive(value: Json)

  function FromJson(j: Json): Top {
    match j
    case JObj(m) => Object(m)
    case JArr(items) => Array(items, map[])
    case JNull => Null
    case _ => Primitive(j)
  }

  /** What `JSON.stringify` writes for the top-level value. */
  function Serialize(t: Top): Json {
    match t
    case Object(m) => JObj(m)
    case Array(items, _) => JArr(items)
    case Null => JNull
    case Primitive(v) => v
  }

  lemma SerializeFromJson(j: Json)
    ensures Serialize(FromJson(j)) == j
  {
  }

  /** `t.key`: reading a property of `null` throws a TypeError. */
  function Get(t: Top, key: string): (r: Result<Option<Json>>)
    ensures r.Err? <==> t.Null?
  {
    match t
    case Null => Err("Cannot read properties of null")
    case Primitive(_) => Ok(None)
    case Object(m) => Ok(if key in m then Some(m[key]) else None)
    case Array(_, m) => Ok(if key in m then Some(m[key]) else None)
  }

  /**
   * `t.key = v` in an ES module (strict mode): assigning a property of `null`
   * or of a primitive throws a TypeError.
   */
  function Set(t: Top, key: string, v: Json): (r: Result<Top>)
    ensures r.Ok? <==> t.Object? || t.Array?
    ensures r.Ok? ==> Get(r.value, key) == Ok(Some(v))
    ensures r.Ok? ==> forall k :: k != key ==> Get(r.value, k) == Get(t, k)
    ensures r.Ok? ==> Serialize(r.value) == if t.Object? then JObj(t.props[key := v]) else Serialize(t)
  {
    match t
    case Null => Err("Cannot set properties of null")
    case Primitive(_) => Err("Cannot create property '" + key + "' on a primitive")
    case Object(m) => Ok(Object(m[key := v]))
    case Array(items, m) => Ok(Array(items, m[key := v]))
  }

  /**
   * `holder.key = v` for a nested value `holder` read from the document:
   * an object gains the key; an array keeps it only in memory, so the
   * serialized value is unchanged; `undefined`, `null` and primitives throw.
   */
  function SetMember(holder: Option<Json>, key: string, v: Json): (r: Result<Json>)
    ensures r.Ok? <==> holder.Some? && (holder.value.JObj? || holder.value.JArr?)
    ensures r.Ok? && holder.value.JObj? ==> r.value == JObj(holder.value.fields[key := v])
    ensures r.Ok? && holder.value.JArr? ==> r.value == holder.value
  {
    match holder
    case Some(JObj(m)) => Ok(JObj(m[key := v]))
    case Some(JArr(items)) => Ok(JArr(items))
    case _ => Err("Cannot set property '" + key + "'")
  }

  /** `Array.isArray(x) && x.length > 0`. */
  predicate NonEmptyArray(v: Option<Json>) {
    v.Some? && v.value.JArr? && v.value.items != []
  }

  /**
   * `v.length`: throws on `undefined` and `null`; a string or an array has
   * one; an object has its own `length` member, when that is a number; any
   * other value gives `undefined` (`None`).
   */
  function Length(v: Option<Json>): (r: Result<Option<int>>)
    ensures r.Err? <==> v.None? || v.value.JNull?
    ensures v.Some? && v.value.JArr? ==> r == Ok(Some(|v.value.items|))
    ensures v.Some? && v.value.JStr? ==> r == Ok(Some(|v.value.s|))
    ensures v.Some? && v.value.JObj? ==>
      (r.value.Some? <==> "length" in v.value.fields && v.value.fields["length"].JNum?)
    ensures r.Ok? && r.value.Some? && v.value.JObj? ==> r.value.value == v.value.fields["length"].n
  {
    match v
    case None => Err("Cannot read properties of undefined (reading 'length')")
    case Some(JNull) => Err("Cannot read properties of null (reading 'length')")
    case Some(JStr(s)) => Ok(Some(|s|))
    case Some(JArr(items)) => Ok(Some(|items|))
    case Some(JObj(m)) => if "length" in m && m["length"].JNum? then Ok(Some(m["length"].n)) else Ok(None)
    case Some(_) => Ok(None)
  }

  /** An object whose own `length` member is a positive number. */
  predicate CountedObject(v: Json) {
    v.JObj? && "length" in v.fields && v.fields["length"].JNum? && v.fields["length"].n > 0
  }

  /**
   * `v && v.length > 0`: holds exactly for a non-empty array or string, and
   * for an object whose own `length` is a positive number.
   */
  predicate HasItems(v: Option<Json>)
    ensures HasItems(v) <==> v.Some? && ((v.value.JArr? && v.value.items != []) || (v.value.JStr? && v.value.s != [])
                                          || CountedObject(v.value))
  {
    Truthy(v) && var len := Length(v); len.Ok? && len.value.Some? && len.value.value > 0
  }

  /**
   * `list[0]` after the guard `list && list.length > 0`, when reading a
   * property of it does not throw: `None` when the guard fails or the first
   * element is missing or `null`. The first element of a string is its
   * first character, that of an object its member `"0"`.
   */
  function FirstRecord(list: Option<Json>): (r: Option<Json>)
    ensures r.Some? <==> HasItems(list) && !(list.value.JArr? && list.value.items[0] == JNull)
                         && !(list.value.JObj? && !("0" in list.value.fields && list.value.fields["0"] != JNull))
    ensures r.Some? && list.value.JArr? ==> r.value == list.value.items[0]
    ensures r.Some? && list.value.JStr? ==> r.value == JStr([list.value.s[0]])
    ensures r.Some? && list.value.JObj? ==> r.value == list.value.fields["0"]
  {
    if !HasItems(list) then None
    else match list.value
      case JArr(items) => if items[0] == JNull then None else Some(items[0])
      case JStr(s) => Some(JStr([s[0]]))
      case JObj(m) => if "0" in m && m["0"] != JNull then Some(m["0"]) else None
  }

  /** Outcome of reading `data.json` and handing its text to `JSON.parse`. */
  datatype FileRead =
    | ReadFailed
    | Loaded(content: string, parsed: Option<Json>)

  /** A write performed with `fs.writeFile`. */
  datatype FileWrite =
    | SaveData(doc: Json)
    | SaveBackup(path: string, content: string)

  const DataPath := "src/data.json"

  /** `${dataPath}.corrupted-${Date.now()}`. */
  function BackupPath(now: nat): (p: string)
    ensures DataPath <= p && p != DataPath
  {
    DataPath + ".corrupted-" + Text.NatToString(now)
  }
}
