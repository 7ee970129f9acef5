/**
  Values that cross the wire between the browser and the backend: JSON documents as
  JavaScript sees them after `JSON.parse` and as Python sees them after `json.loads`.
  Numbers are integers only; floating point is not modelled.
 */
module JsonValues {
  import opened Wrappers

  datatype Json =
    | JNull
    | JBool(b: bool)
    | JNum(n: int)
    | JStr(s: string)
    | JArr(items: seq<Json>)
    | JObj(fields: map<string, Json>)

  /** Python truthiness (`if value:`): empty containers, "", 0, False and None are false. */
  predicate PyTruthy(v: Json) {
    match v
    case JNull => false
    case JBool(b) => b
    case JNum(n) => n != 0
    case JStr(s) => s != ""
    case JArr(items) => |items| > 0
    case JObj(fields) => |fields| > 0
  }

  /** JavaScript truthiness: unlike Python, every array and object is truthy. */
  predicate JsTruthy(v: Json) {
    match v
    case JNull => false
    case JBool(b) => b
    case JNum(n) => n != 0
    case JStr(s) => s != ""
    case JArr(_) => true
    case JObj(_) => true
  }

  /** Python `value == True`: holds for `True` and for the integer 1. */
  predicate PyEqualsTrue(v: Json) {
    v == JBool(true) || v == JNum(1)
  }

  /** Python `d.get(key, default)` on a dict. */
  function DictGet(fields: map<string, Json>, key: string, default: Json): (r: Json)
    ensures key in fields ==> r == fields[key]
    ensures key !in fields ==> r == default
  {
    if key in fields then fields[key] else default
  }

  /** JavaScript `obj.key` on a parsed object: `None` stands for `undefined`. */
  function Field(fields: map<string, Json>, key: string): (r: Option<Json>)
    ensures r.Some? <==> key in fields
    ensures r.Some? ==> r.value == fields[key]
  {
    if key in fields then Some(fields[key]) else None
  }

  /** The two truthiness notions differ exactly on empty containers. */
  lemma TruthinessDiffersOnlyOnEmptyContainers(v: Json)
    ensures PyTruthy(v) != JsTruthy(v) <==> v == JArr([]) || v == JObj(map[])
  {
    match v
    case JArr(items) =>
      assert |items| == 0 ==> items == [];
    case JObj(fields) =>
      assert |fields| == 0 ==> fields == map[];
    case _ =>
  }
}
