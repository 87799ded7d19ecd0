/**
 * Collaborators defined outside cache/models/samples.js. Their behaviour
 * is not part of this model: each is a field of `Env`, an arbitrary
 * function or constant. The one stand-in is `ArrayStringsToJson`, which
 * replaces each listed string field by its parsed value.
 */
module Helpers {
  import opened Wrappers
  import opened Values

  /** Entity types that `toKey` discriminates. */
  datatype ObjectType = SampleType | AspectType

  datatype Env = Env(
    /** sampleStore.toKey(objectType, name) */
    toKey: (ObjectType, Value) -> string,
    /** the string decoder used by sampleStore.arrayStringsToJson */
    parseJson: string -> Value,
    /** sampleStore.constants.fieldsToStringify.sample */
    sampleStringFields: seq<string>,
    /** sampleStore.constants.fieldsToStringify.aspect */
    aspectStringFields: seq<string>,
    /** u.getApiLinks(name, helper, res.method) */
    apiLinks: (Value, Value) -> Value,
    /** the `attributes` of u.buildFieldList(params) */
    buildFieldList: map<string, Value> -> Option<seq<string>>,
    /** parseInt(value, radix) */
    parseInt: (Value, Value) -> Value,
    /** apiConstants.NOT_FILTER_FIELDS */
    notFilterFields: seq<string>,
    /** helper.defaultOrder */
    defaultOrder: Value,
    /** config api.defaults.limit and api.defaults.offset */
    defaultLimit: Value,
    defaultOffset: Value
  )

  /** The listed fields that hold strings are decoded; the rest stay. */
  function DecodeRecord(m: Record, fields: seq<string>, parse: string -> Value): (r: Record)
    ensures r.Keys == m.Keys
    ensures forall k :: k in m && k !in fields ==> r[k] == m[k]
    ensures forall k :: k in m && !m[k].Str? ==> r[k] == m[k]
    ensures forall k :: k in m && k in fields && m[k].Str? ==> r[k] == parse(m[k].s)
  {
    map k | k in m :: if k in fields && m[k].Str? then parse(m[k].s) else m[k]
  }

  /** sampleStore.arrayStringsToJson; a null or undefined record passes through. */
  function ArrayStringsToJson(v: Value, fields: seq<string>, parse: string -> Value): (r: Value)
    ensures r.Obj? <==> v.Obj?
    ensures !v.Obj? ==> r == v
    ensures r.Obj? ==> r.fields.Keys == v.fields.Keys
  {
    if v.Obj? then Obj(DecodeRecord(v.fields, fields, parse)) else v
  }
}
