/**
 * The id extractor of Analyzer/extractor.py, over JSON-like values with
 * Python's truth values.
 */
module Extractor {
  import opened Wrappers
  import opened Sequences

  /** A JSON-like Python value. */
  datatype Value =
    | Null
    | Bool(b: bool)
    | Int(i: int)
    | Float(f: real)
    | Str(s: string)
    | List(items: seq<Value>)
    | Dict(entries: map<string, Value>)

  /** Python's truth value: `None`, `False`, `0`, `0.0` and empty containers are false. */
  predicate Truthy(v: Value) {
    match v
    case Null => false
    case Bool(b) => b
    case Int(i) => i != 0
    case Float(f) => f != 0.0
    case Str(s) => s != ""
    case List(items) => items != []
    case Dict(entries) => entries != map[]
  }

  /** A record: `None` or a dictionary. */
  type Record = Option<map<string, Value>>

  /** The record is `None` or `{}`. */
  predicate IsFalsyRecord(record: Record) {
    record.None? || record.value == map[]
  }

  /**
   * `extract_id(record)`: `None` for a falsy record, otherwise the record's `id`,
   * or the string `"UNKNOWN"` when it has none.
   */
  function ExtractId(record: Record): (r: Value)
    ensures IsFalsyRecord(record) ==> r == Null
    ensures !Truthy(r) <==> IsFalsyRecord(record) || ("id" in record.value && !Truthy(record.value["id"]))
    ensures !IsFalsyRecord(record) ==> r == (if "id" in record.value then record.value["id"] else Str("UNKNOWN"))
  {
    if IsFalsyRecord(record) then Null
    else if "id" in record.value then record.value["id"]
    else Str("UNKNOWN")
  }

  /** The extracted value of each record, in order. */
  function ExtractedIds(items: seq<Record>): (r: seq<Value>)
    ensures |r| == |items|
    ensures forall i :: 0 <= i < |items| ==> r[i] == ExtractId(items[i])
  {
    seq(|items|, i requires 0 <= i < |items| => ExtractId(items[i]))
  }

  function IsTruthy(): Value -> bool {
    (v: Value) => Truthy(v)
  }

  /** What `process_items` returns: the truthy extracted values, in order. */
  function KeptIds(items: seq<Record>): seq<Value> {
    Filter(ExtractedIds(items), IsTruthy())
  }

  /** `process_items(items)` */
  method ProcessItems(items: seq<Record>) returns (ids: seq<Value>)
    ensures ids == KeptIds(items)
  {
    ids := [];
    for i := 0 to |items|
      invariant ids == KeptIds(items[..i])
    {
      var item := items[i];
      assert ExtractedIds(items[..i + 1]) == ExtractedIds(items[..i]) + [ExtractId(item)];
      var extracted := ExtractId(item);
      if Truthy(extracted) {
        ids := ids + [extracted];
      }
    }
    assert items[..|items|] == items;
  }

  /** Processing a further record adds its extracted value exactly when that value is truthy. */
  lemma KeptIdsSnoc(items: seq<Record>, record: Record)
    ensures KeptIds(items + [record]) == KeptIds(items) + (if Truthy(ExtractId(record)) then [ExtractId(record)] else [])
  {
    assert ExtractedIds(items + [record])[..|items|] == ExtractedIds(items);
  }

  /**
   * The output is no longer than the input, holds only truthy values, and
   * holds a value exactly when some record yields it.
   */
  lemma KeptIdsMembers(items: seq<Record>)
    ensures |KeptIds(items)| <= |items|
    ensures forall v :: v in KeptIds(items) ==> Truthy(v)
    ensures forall v :: v in KeptIds(items) <==> exists i :: 0 <= i < |items| && ExtractId(items[i]) == v && Truthy(v)
  {
    FilterMembers(ExtractedIds(items), IsTruthy());
  }

  /** Records that are `None` or empty, or whose `id` is falsy (`0`, `0.0`, `""`, `None`), are dropped. */
  lemma FalsyIdsDropped(items: seq<Record>, record: Record)
    requires IsFalsyRecord(record) || ("id" in record.value && !Truthy(record.value["id"]))
    ensures KeptIds(items + [record]) == KeptIds(items)
  {
    KeptIdsSnoc(items, record);
  }

  /** A non-empty record without an `id` contributes `"UNKNOWN"`. */
  lemma MissingIdIsUnknown(items: seq<Record>, record: Record)
    requires !IsFalsyRecord(record) && "id" !in record.value
    ensures KeptIds(items + [record]) == KeptIds(items) + [Str("UNKNOWN")]
  {
    KeptIdsSnoc(items, record);
  }
}
