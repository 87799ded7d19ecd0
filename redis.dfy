/**
 * The cache as the read path sees it: a store of hashes, the two read
 * commands the path issues, and the replies the client hands back. A
 * pipelined batch answers its commands positionally.
 */
module Redis {
  import opened Values

  type Hash = map<string, string>
  type Store = map<string, Hash>

  datatype Command =
    | HGetAll(key: string)
    | HMGet(key: string, fields: seq<string>)

  /** One field of one hash, as HMGET reports it: its string or nil. */
  function FieldReply(store: Store, key: string, field: string): Value {
    if key in store && field in store[key] then Str(store[key][field]) else Null
  }

  /** A whole hash as an object of strings. */
  function HashObject(h: Hash): (r: Record)
    ensures r.Keys == h.Keys
    ensures forall f :: f in h ==> r[f] == Str(h[f])
  {
    map f | f in h :: Str(h[f])
  }

  /** The client's reply to one command: HGETALL of a missing hash is null. */
  function Exec(store: Store, cmd: Command): (r: Value)
    ensures cmd.HGetAll? ==> (r == Null <==> cmd.key !in store || store[cmd.key] == map[])
    ensures cmd.HGetAll? ==> r == Null || (r.Obj? && r.fields.Keys == store[cmd.key].Keys)
    ensures cmd.HMGet? ==> r.Arr? && |r.items| == |cmd.fields|
    ensures cmd.HMGet? ==> forall i :: 0 <= i < |cmd.fields| ==>
      (r.items[i] == Null <==> cmd.key !in store || cmd.fields[i] !in store[cmd.key])
  {
    match cmd
    case HGetAll(key) =>
      if key in store && store[key] != map[] then Obj(HashObject(store[key])) else Null
    case HMGet(key, fields) =>
      Arr(seq(|fields|, i requires 0 <= i < |fields| => FieldReply(store, key, fields[i])))
  }

  /** A pipelined batch: reply i answers command i. */
  function ExecBatch(store: Store, cmds: seq<Command>): (replies: seq<Value>)
    ensures |replies| == |cmds|
    ensures forall i :: 0 <= i < |cmds| ==> replies[i] == Exec(store, cmds[i])
  {
    seq(|cmds|, i requires 0 <= i < |cmds| => Exec(store, cmds[i]))
  }

  /** What a projected fetch of `key` should yield: exactly the requested fields. */
  function Projection(store: Store, key: string, attrs: seq<string>): (r: Record)
    ensures forall f :: f in r <==> f in attrs
    ensures forall f :: f in r ==> r[f] == FieldReply(store, key, f)
  {
    map f | f in attrs :: FieldReply(store, key, f)
  }

  /**
   * A projected fetch agrees with a full fetch on every requested field
   * the hash holds, and reports nil for every requested field it lacks.
   */
  lemma ProjectionAgreesWithFullFetch(store: Store, key: string, attrs: seq<string>)
    requires key in store && store[key] != map[]
    ensures Exec(store, HGetAll(key)).Obj?
    ensures forall f :: f in attrs && f in store[key] ==>
      Projection(store, key, attrs)[f] == Exec(store, HGetAll(key)).fields[f]
    ensures forall f :: f in attrs && f !in store[key] ==>
      Projection(store, key, attrs)[f] == Null && f !in Exec(store, HGetAll(key)).fields
  {
  }
}
