/**
 * The cache-backed sample read path: request options, the get-one batch
 * and its decoding, the sample/aspect join, and the find-many pipeline.
 * Cache round trips are replaced by the store the batch runs against and
 * by the index listings the cache returns; handlers return the response
 * body, or the error their catch handler would receive.
 */
module Samples {
  import opened Wrappers
  import opened Values
  import opened Redis
  import opened Helpers

  /**
   * The swagger parameters of a request: `names` is `Object.keys(params)`
   * and `values` maps each parameter to its `.value`.
   */
  datatype Params = Params(names: seq<string>, values: map<string, Value>) {
    ghost predicate Valid() {
      forall k :: k in values <==> k in names
    }
  }

  /** The options record built from the request. */
  datatype Options = Options(
    attributes: Option<seq<string>>,
    order: Option<Value>,
    limit: Option<Value>,
    offset: Option<Value>,
    filter: Option<Record>
  )

  /** `params.<name> && params.<name>.value`. */
  predicate Supplied(params: Params, name: string) {
    name in params.values && Truthy(params.values[name])
  }

  /** The sort clause dereferences `params.sort` whenever a default order exists. */
  predicate SortThrows(params: Params, env: Env) {
    "sort" !in params.values && Truthy(env.defaultOrder)
  }

  /** A parameter that becomes an entry of the filter map. */
  predicate IsFilterParam(params: Params, env: Env, k: string) {
    k in params.values && k !in env.notFilterFields && params.values[k] != Undefined
  }

  method GetOptionsFromReq(params: Params, env: Env) returns (r: Result<Options, Error>)
    requires params.Valid()
    ensures r.Failure? <==> SortThrows(params, env)
    ensures r.Success? ==> r.value.attributes == env.buildFieldList(params.values)
    ensures r.Success? && Supplied(params, "sort") ==> r.value.order == Some(params.values["sort"])
    ensures r.Success? && !Supplied(params, "sort") ==>
      r.value.order == (if Truthy(env.defaultOrder) then Some(env.defaultOrder) else None)
    ensures r.Success? ==> (r.value.limit.Some? <==> Supplied(params, "limit"))
    ensures r.Success? && r.value.limit.Some? ==>
      r.value.limit.value == env.parseInt(params.values["limit"], env.defaultLimit)
    ensures r.Success? ==> (r.value.offset.Some? <==> Supplied(params, "offset"))
    ensures r.Success? && r.value.offset.Some? ==>
      r.value.offset.value == env.parseInt(params.values["offset"], env.defaultOffset)
    ensures r.Success? ==> (r.value.filter.Some? <==> exists k :: IsFilterParam(params, env, k))
    ensures r.Success? && r.value.filter.Some? ==>
      forall k :: k in r.value.filter.value <==> IsFilterParam(params, env, k)
    ensures r.Success? && r.value.filter.Some? ==>
      forall k :: k in r.value.filter.value ==> r.value.filter.value[k] == params.values[k]
  {
    var attributes := env.buildFieldList(params.values);

    var order := None;
    if Supplied(params, "sort") || Truthy(env.defaultOrder) {
      if "sort" !in params.values {
        return Failure(TypeError("Cannot read property 'value' of undefined"));
      }
      order := Some(if Truthy(params.values["sort"]) then params.values["sort"] else env.defaultOrder);
    }

    var limit := None;
    if Supplied(params, "limit") {
      limit := Some(env.parseInt(params.values["limit"], env.defaultLimit));
    }

    var offset := None;
    if Supplied(params, "offset") {
      offset := Some(env.parseInt(params.values["offset"], env.defaultOffset));
    }

    var filter: Record := map[];
    var i := 0;
    while i < |params.names|
      invariant 0 <= i <= |params.names|
      invariant forall k :: k in filter <==> k in params.names[..i] && IsFilterParam(params, env, k)
      invariant forall k :: k in filter ==> filter[k] == params.values[k]
    {
      var key := params.names[i];
      var isFilterField := key !in env.notFilterFields;
      if isFilterField && params.values[key] != Undefined {
        filter := filter[key := params.values[key]];
      }
      i := i + 1;
    }
    assert params.names[..i] == params.names;

    r := Success(Options(attributes, order, limit, offset, if filter == map[] then None else Some(filter)));
  }

  /**
   * cleanAddAspectToSample: decode both records, nest the aspect under
   * `aspect` and attach `apiLinks` computed from the result's name. A null
   * sample cannot take the `aspect` property, so the join throws.
   */
  function CleanAddAspectToSample(sampleObj: Option<Record>, aspectObj: Value, resMethod: Value, env: Env): (r: Result<Record, Error>)
    ensures r.Failure? <==> sampleObj.None?
    ensures r.Success? ==> r.value.Keys == sampleObj.value.Keys + {"aspect", "apiLinks"}
    ensures r.Success? ==> forall k :: k in sampleObj.value && k != "aspect" && k != "apiLinks" ==>
      r.value[k] == DecodeRecord(sampleObj.value, env.sampleStringFields, env.parseJson)[k]
    ensures r.Success? ==> r.value["aspect"] == ArrayStringsToJson(aspectObj, env.aspectStringFields, env.parseJson)
    ensures r.Success? ==> r.value["apiLinks"] == env.apiLinks(Get(r.value, "name"), resMethod)
  {
    match sampleObj
    case None => Failure(TypeError("Cannot set property 'aspect' of null"))
    case Some(m) =>
      var sampleRes := DecodeRecord(m, env.sampleStringFields, env.parseJson);
      var aspect := ArrayStringsToJson(aspectObj, env.aspectStringFields, env.parseJson);
      var withAspect := sampleRes["aspect" := aspect];
      Success(withAspect["apiLinks" := env.apiLinks(Get(withAspect, "name"), resMethod)])
  }

  /**
   * The get-by-name response: the name keeps its original case, stringified
   * sample and aspect fields come back decoded, and the aspect's own fields
   * are reachable under `aspect`.
   */
  lemma JoinDecodesAndKeepsName(m: Record, a: Record, resMethod: Value, env: Env, links: string, range: string)
    requires "name" in m && "name" !in env.sampleStringFields
    requires "relatedLinks" in env.sampleStringFields && Get(m, "relatedLinks") == Str(links)
    requires "criticalRange" in env.aspectStringFields && Get(a, "criticalRange") == Str(range)
    requires "name" in a && "name" !in env.aspectStringFields
    ensures CleanAddAspectToSample(Some(m), Obj(a), resMethod, env).Success?
    ensures var res := CleanAddAspectToSample(Some(m), Obj(a), resMethod, env).value;
      && res["name"] == m["name"]
      && res["relatedLinks"] == env.parseJson(links)
      && res["aspect"].Obj?
      && res["aspect"].fields["name"] == a["name"]
      && res["aspect"].fields["criticalRange"] == env.parseJson(range)
      && res["apiLinks"] == env.apiLinks(m["name"], resMethod)
  {
  }

  // ---------------------------------------------------------------------
  // Get one sample.

  /** The sample key, built from the lower-cased request name. */
  function SampleKeyOf(env: Env, name: string): string {
    env.toKey(SampleType, Str(Lower(name)))
  }

  /** The aspect key, built from the segment after '|' of the lower-cased name. */
  function AspectKeyOf(env: Env, name: string): (key: string)
    ensures key == env.toKey(AspectType, LowerValue(SplitSecond(name)))
  {
    SplitSecondOfLower(name);
    env.toKey(AspectType, SplitSecond(Lower(name)))
  }

  /** Both keys depend on the request name only through its lower-cased form. */
  lemma KeysIgnoreCase(env: Env, name: string)
    ensures SampleKeyOf(env, Lower(name)) == SampleKeyOf(env, name)
    ensures AspectKeyOf(env, Lower(name)) == AspectKeyOf(env, name)
  {
    LowerIdempotent(name);
  }

  /** The batch for one sample name (already lower-cased). */
  method BuildGetCommands(sampleName: string, attrs: Option<seq<string>>, env: Env) returns (commands: seq<Command>)
    ensures |commands| == 2
    ensures attrs.Some? ==> commands[0] == HMGet(env.toKey(SampleType, Str(sampleName)), attrs.value)
    ensures attrs.None? ==> commands[0] == HGetAll(env.toKey(SampleType, Str(sampleName)))
    ensures commands[1] == HGetAll(env.toKey(AspectType, SplitSecond(sampleName)))
  {
    var aspectName := SplitSecond(sampleName);
    commands := [];
    if attrs.Some? {
      var command := HMGet(env.toKey(SampleType, Str(sampleName)), []);
      for i := 0 to |attrs.value|
        invariant command == HMGet(env.toKey(SampleType, Str(sampleName)), attrs.value[..i])
      {
        command := command.(fields := command.fields + [attrs.value[i]]);
      }
      assert attrs.value[..|attrs.value|] == attrs.value;
      commands := commands + [command];
    } else {
      commands := commands + [HGetAll(env.toKey(SampleType, Str(sampleName)))];
    }
    commands := commands + [HGetAll(env.toKey(AspectType, aspectName))];
  }

  /** Position `i` of an HMGET reply (an array of values). */
  function ReplyAt(reply: Value, i: nat): Value {
    if reply.Arr? && i < |reply.items| then reply.items[i] else Undefined
  }

  /**
   * Rebuild a record from an HMGET reply: field `attrs[i]` takes reply
   * position `i`; for a repeated field the last position wins.
   */
  method ZipReply(attrs: seq<string>, reply: Value) returns (obj: Record)
    ensures forall k :: k in obj <==> k in attrs
    ensures forall i :: 0 <= i < |attrs| && attrs[i] !in attrs[i + 1..] ==> obj[attrs[i]] == ReplyAt(reply, i)
    ensures forall k :: k in obj ==> exists i :: 0 <= i < |attrs| && attrs[i] == k && obj[k] == ReplyAt(reply, i)
  {
    obj := map[];
    for i := 0 to |attrs|
      invariant forall k :: k in obj <==> k in attrs[..i]
      invariant forall j :: 0 <= j < i && attrs[j] !in attrs[j + 1..i] ==> obj[attrs[j]] == ReplyAt(reply, j)
      invariant forall k :: k in obj ==> exists j :: 0 <= j < i && attrs[j] == k && obj[k] == ReplyAt(reply, j)
    {
      var prev := obj;
      obj := obj[attrs[i] := ReplyAt(reply, i)];
      assert attrs[..i + 1] == attrs[..i] + [attrs[i]];
      forall j | 0 <= j < i + 1 && attrs[j] !in attrs[j + 1..i + 1]
        ensures obj[attrs[j]] == ReplyAt(reply, j)
      {
        if j < i {
          assert attrs[j + 1..i + 1] == attrs[j + 1..i] + [attrs[i]];
          assert attrs[j] != attrs[i] && attrs[j] !in attrs[j + 1..i];
        }
      }
      forall k | k in obj
        ensures exists j :: 0 <= j < i + 1 && attrs[j] == k && obj[k] == ReplyAt(reply, j)
      {
        if k == attrs[i] {
          assert attrs[i] == k && obj[k] == ReplyAt(reply, i);
        } else {
          var j :| 0 <= j < i && attrs[j] == k && prev[k] == ReplyAt(reply, j);
          assert obj[k] == prev[k];
        }
      }
    }
    assert attrs[..|attrs|] == attrs;
  }

  /** The sample record the get-one path joins, as fetched from `store`. */
  function FetchedSample(store: Store, key: string, attrs: Option<seq<string>>): Option<Record> {
    if attrs.Some? then Some(Projection(store, key, attrs.value)) else AsRecord(Exec(store, HGetAll(key)))
  }

  /** getSampleFromRedis: the response body for `GET /samples/{key}`. */
  method GetSampleFromRedis(params: Params, resMethod: Value, env: Env, store: Store) returns (r: Result<Record, Error>)
    requires params.Valid()
    ensures SortThrows(params, env) || !Get(params.values, "key").Str? ==> r.Failure?
    ensures !SortThrows(params, env) && Get(params.values, "key").Str? ==>
      var name := Get(params.values, "key").s;
      r == CleanAddAspectToSample(
        FetchedSample(store, SampleKeyOf(env, name), env.buildFieldList(params.values)),
        Exec(store, HGetAll(AspectKeyOf(env, name))), resMethod, env)
  {
    var opts :- GetOptionsFromReq(params, env);
    var key := Get(params.values, "key");
    if !key.Str? {
      return Failure(TypeError("Cannot read property 'toLowerCase' of undefined"));
    }
    var sampleName := Lower(key.s);
    var commands := BuildGetCommands(sampleName, opts.attributes, env);
    var responses := ExecBatch(store, commands);
    var sampleResponse := responses[0];
    var aspectResponse := responses[1];

    var sampleObj: Option<Record>;
    if opts.attributes.Some? {
      var attrs := opts.attributes.value;
      var zipped := ZipReply(attrs, sampleResponse);
      forall i | 0 <= i < |attrs|
        ensures ReplyAt(sampleResponse, i) == FieldReply(store, SampleKeyOf(env, key.s), attrs[i])
      {
      }
      assert zipped == Projection(store, SampleKeyOf(env, key.s), attrs);
      sampleObj := Some(zipped);
    } else {
      sampleObj := AsRecord(sampleResponse);
    }

    r := CleanAddAspectToSample(sampleObj, aspectResponse, resMethod, env);
  }

  /**
   * A projected get-one returns exactly the requested fields (plus the two
   * attached ones), each holding the cache's value or nil, even when the
   * sample hash is missing.
   */
  lemma GetOneProjectionFields(store: Store, key: string, attrs: seq<string>, aspectObj: Value, resMethod: Value, env: Env)
    ensures var r := CleanAddAspectToSample(FetchedSample(store, key, Some(attrs)), aspectObj, resMethod, env);
      && r.Success?
      && (forall f :: f in r.value <==> f in attrs || f == "aspect" || f == "apiLinks")
      && (forall f :: f in attrs && f !in env.sampleStringFields && f != "aspect" && f != "apiLinks" ==>
            r.value[f] == FieldReply(store, key, f))
  {
  }

  /** A full get-one of a sample hash that is missing throws in the join. */
  lemma GetOneMissingSampleThrows(store: Store, key: string, aspectObj: Value, resMethod: Value, env: Env)
    requires key !in store || store[key] == map[]
    ensures CleanAddAspectToSample(FetchedSample(store, key, None), aspectObj, resMethod, env).Failure?
  {
  }

  /** A missing aspect hash is not an error: the sample is joined with `aspect: null`. */
  lemma GetOneMissingAspectJoinsNull(store: Store, sampleKey: string, aspectKey: string, attrs: Option<seq<string>>, resMethod: Value, env: Env)
    requires aspectKey !in store
    requires attrs.Some? || (sampleKey in store && store[sampleKey] != map[])
    ensures var r := CleanAddAspectToSample(FetchedSample(store, sampleKey, attrs), Exec(store, HGetAll(aspectKey)), resMethod, env);
      r.Success? && r.value["aspect"] == Null
  {
  }

  /**
   * For a composite name `subject|aspect`, both keys come from the
   * lower-cased name: the aspect key names the lower-cased aspect part.
   */
  lemma {:induction false} GetOneKeysOfCompositeName(env: Env, subject: string, aspect: string)
    requires '|' !in subject && '|' !in aspect
    ensures SampleKeyOf(env, subject + "|" + aspect) == env.toKey(SampleType, Str(Lower(subject + "|" + aspect)))
    ensures AspectKeyOf(env, subject + "|" + aspect) == env.toKey(AspectType, Str(Lower(aspect)))
  {
    var name := subject + "|" + aspect;
    assert name == subject + "|" + aspect + [];
    SplitSecondOfComposite(subject, aspect, []);
    SplitSecondOfLower(name);
  }

  // ---------------------------------------------------------------------
  // Find many samples.

  /** One HGETALL per index entry, keyed by the lower-cased entry, in index order. */
  method BuildIndexCommands(keys: seq<string>) returns (cmds: seq<Command>)
    ensures |cmds| == |keys|
    ensures forall i :: 0 <= i < |keys| ==> cmds[i] == HGetAll(Lower(keys[i]))
  {
    cmds := [];
    for i := 0 to |keys|
      invariant |cmds| == i
      invariant forall j :: 0 <= j < i ==> cmds[j] == HGetAll(Lower(keys[j]))
    {
      cmds := cmds + [HGetAll(Lower(keys[i]))];
    }
  }

  /** The replies to one HGETALL per index entry. */
  function IndexReplies(store: Store, keys: seq<string>): (replies: seq<Value>)
    ensures |replies| == |keys|
    ensures forall i :: 0 <= i < |keys| ==> replies[i] == Exec(store, HGetAll(Lower(keys[i])))
  {
    seq(|keys|, i requires 0 <= i < |keys| => Exec(store, HGetAll(Lower(keys[i]))))
  }

  /** How `aspects.find` ends: at a match, off the end, or throwing at a null entry. */
  datatype Search = Found(index: nat) | NoMatch | ThrewAt(index: nat)

  /** `aspect.name === target` on an aspect object. */
  predicate NameIs(v: Value, target: Value) {
    v.Obj? && Get(v.fields, "name") == target
  }

  /** Where a search stopped. */
  function StopOf(r: Search, n: nat): nat {
    match r
    case Found(i) => i
    case ThrewAt(i) => i
    case NoMatch => n
  }

  /** `aspects.find((aspect) => aspect.name === target)`, scanning from `from`. */
  function FindAspect(aspects: seq<Value>, target: Value, from: nat): (r: Search)
    requires from <= |aspects|
    decreases |aspects| - from
    ensures r.Found? ==> from <= r.index < |aspects| && NameIs(aspects[r.index], target)
    ensures r.ThrewAt? ==> from <= r.index < |aspects| && !aspects[r.index].Obj?
    ensures from <= StopOf(r, |aspects|)
    ensures forall j :: from <= j < StopOf(r, |aspects|) ==> aspects[j].Obj? && !NameIs(aspects[j], target)
  {
    if from == |aspects| then NoMatch
    else if !aspects[from].Obj? then ThrewAt(from)
    else if NameIs(aspects[from], target) then Found(from)
    else FindAspect(aspects, target, from + 1)
  }

  /**
   * The find-many loop body for one sample reply: pair it with its aspect
   * and join. The callback of `find` reads `aspect.name` and then
   * `sampleObj.name.split('|')`, so with no aspects neither is read, and a
   * null aspect is reached before the sample's name.
   */
  function JoinSample(sampleObj: Value, aspects: seq<Value>, resMethod: Value, env: Env): (r: Result<Record, Error>)
    ensures r.Success? ==> sampleObj.Obj? && r.value.Keys == sampleObj.fields.Keys + {"aspect", "apiLinks"}
    ensures r.Success? && aspects != [] ==> Get(sampleObj.fields, "name").Str?
    ensures (sampleObj.Obj? && (aspects != [] ==> Get(sampleObj.fields, "name").Str?) &&
             (forall j :: 0 <= j < |aspects| ==> aspects[j].Obj?)) ==> r.Success?
    ensures aspects != [] && !aspects[0].Obj? ==> r.Failure?
  {
    if aspects == [] then CleanAddAspectToSample(AsRecord(sampleObj), Undefined, resMethod, env)
    else if !aspects[0].Obj? then Failure(TypeError("Cannot read property 'name' of null"))
    else if !sampleObj.Obj? || !Get(sampleObj.fields, "name").Str? then
      Failure(TypeError("Cannot read property 'split' of undefined"))
    else
      match FindAspect(aspects, SplitSecond(Get(sampleObj.fields, "name").s), 0)
      case ThrewAt(_) => Failure(TypeError("Cannot read property 'name' of null"))
      case NoMatch => CleanAddAspectToSample(Some(sampleObj.fields), Undefined, resMethod, env)
      case Found(i) => CleanAddAspectToSample(Some(sampleObj.fields), aspects[i], resMethod, env)
  }

  /** The find-many join loop: one joined record per sample reply, in order. */
  method JoinAll(samples: seq<Value>, aspects: seq<Value>, resMethod: Value, env: Env) returns (r: Result<seq<Record>, Error>)
    ensures r.Success? <==> forall i :: 0 <= i < |samples| ==> JoinSample(samples[i], aspects, resMethod, env).Success?
    ensures r.Success? ==> |r.value| == |samples|
    ensures r.Success? ==> forall i :: 0 <= i < |samples| ==> r.value[i] == JoinSample(samples[i], aspects, resMethod, env).value
  {
    var response: seq<Record> := [];
    for i := 0 to |samples|
      invariant |response| == i
      invariant forall j :: 0 <= j < i ==> JoinSample(samples[j], aspects, resMethod, env).Success?
      invariant forall j :: 0 <= j < i ==> response[j] == JoinSample(samples[j], aspects, resMethod, env).value
    {
      var sampleRes := JoinSample(samples[i], aspects, resMethod, env);
      if sampleRes.Failure? {
        return Failure(sampleRes.error);
      }
      response := response + [sampleRes.value];
    }
    r := Success(response);
  }

  /** findSamplesFromRedis: the response body for `GET /samples`. */
  method FindSamplesFromRedis(params: Params, resMethod: Value, env: Env, store: Store,
                              sampleIndex: seq<string>, aspectIndex: seq<string>)
    returns (r: Result<seq<Record>, Error>)
    requires params.Valid()
    ensures SortThrows(params, env) ==> r.Failure?
    ensures !SortThrows(params, env) ==>
      (r.Success? <==> forall i :: 0 <= i < |sampleIndex| ==>
        JoinSample(Exec(store, HGetAll(Lower(sampleIndex[i]))), IndexReplies(store, aspectIndex), resMethod, env).Success?)
    ensures r.Success? ==> |r.value| == |sampleIndex|
    ensures r.Success? ==> forall i :: 0 <= i < |sampleIndex| ==>
      r.value[i] == JoinSample(Exec(store, HGetAll(Lower(sampleIndex[i]))), IndexReplies(store, aspectIndex), resMethod, env).value
  {
    var opts := GetOptionsFromReq(params, env);
    if opts.Failure? {
      return Failure(opts.error);
    }
    var sampleCmds := BuildIndexCommands(sampleIndex);
    var aspectCmds := BuildIndexCommands(aspectIndex);
    var samples := ExecBatch(store, sampleCmds);
    var aspects := ExecBatch(store, aspectCmds);
    assert samples == IndexReplies(store, sampleIndex);
    assert aspects == IndexReplies(store, aspectIndex);
    r := JoinAll(samples, aspects, resMethod, env);
  }

  /**
   * Pairing: a sample is joined with the first aspect whose name equals,
   * case-sensitively, the segment after '|' of the sample's name.
   */
  lemma JoinSamplePairsFirstMatch(sampleObj: Value, aspects: seq<Value>, i: nat, resMethod: Value, env: Env)
    requires sampleObj.Obj? && Get(sampleObj.fields, "name").Str?
    requires i < |aspects| && NameIs(aspects[i], SplitSecond(Get(sampleObj.fields, "name").s))
    requires forall j :: 0 <= j < i ==>
      aspects[j].Obj? && !NameIs(aspects[j], SplitSecond(Get(sampleObj.fields, "name").s))
    ensures JoinSample(sampleObj, aspects, resMethod, env) == CleanAddAspectToSample(Some(sampleObj.fields), aspects[i], resMethod, env)
    ensures JoinSample(sampleObj, aspects, resMethod, env).Success?
  {

  }

  /** A sample whose aspect is not among the (non-null) aspects is joined with `undefined`. */
  lemma JoinSampleWithoutMatch(sampleObj: Value, aspects: seq<Value>, resMethod: Value, env: Env)
    requires sampleObj.Obj? && Get(sampleObj.fields, "name").Str?
    requires forall j :: 0 <= j < |aspects| ==>
      aspects[j].Obj? && !NameIs(aspects[j], SplitSecond(Get(sampleObj.fields, "name").s))
    ensures JoinSample(sampleObj, aspects, resMethod, env).Success?
    ensures JoinSample(sampleObj, aspects, resMethod, env).value["aspect"] == Undefined
  {

  }

  /**
   * On a consistent cache (every indexed sample hash exists and has a name,
   * every indexed aspect hash exists) every sample joins, so the response
   * has one record per index entry.
   */
  lemma FindManyConsistentCacheJoinsAll(store: Store, sampleIndex: seq<string>, aspectIndex: seq<string>, resMethod: Value, env: Env)
    requires forall i :: 0 <= i < |sampleIndex| ==>
      Lower(sampleIndex[i]) in store && "name" in store[Lower(sampleIndex[i])]
    requires forall i :: 0 <= i < |aspectIndex| ==>
      Lower(aspectIndex[i]) in store && store[Lower(aspectIndex[i])] != map[]
    ensures forall i :: 0 <= i < |sampleIndex| ==>
      JoinSample(Exec(store, HGetAll(Lower(sampleIndex[i]))), IndexReplies(store, aspectIndex), resMethod, env).Success?
  {

  }
}
