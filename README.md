# Cache-backed sample reads, modelled in Dafny

This project models the read path that serves samples from the cache
(`cache/models/samples.js`). A **sample** is named `subject|aspect` and is
stored as a flat hash. Its **aspect** is another hash, found by the part of
the sample name after `|`. The path has four parts:

- `getOptionsFromReq` turns the parsed query parameters into an options
  record: projection, sort order, limit, offset and a filter map.
- `getSampleFromRedis` builds a two-command batch (the sample with `HMGET`
  or `HGETALL`, then the aspect with `HGETALL`). It rebuilds a projected
  sample from the positional `HMGET` reply and joins it with the aspect.
- `cleanAddAspectToSample` decodes the stringified fields of both records,
  nests the aspect under `aspect` and attaches `apiLinks`.
- `findSamplesFromRedis` issues one `HGETALL` per sample-index entry and one
  per aspect-index entry. It pairs each sample with the first aspect whose
  name matches, and returns one joined record per sample, in index order.

Files:

- `wrappers.dfy`: `Option` and `Result`.
- `values.dfy`: JavaScript values (`Value`, `Record` as a property map,
  truthiness), `toLowerCase`, and `split('|')[1]` with its lemmas.
- `redis.dfy`: the cache as a store of hashes, the `HGETALL`/`HMGET`
  commands, and the replies a pipelined batch gives back, one per command.
  These are definitions of the cache's behaviour, not claims about the
  code: `ExecBatch` answers command i with reply i (the pipelining
  contract), `Projection` is the record a by-field fetch should yield, and
  `HashObject` turns a hash into an object of strings.
- `helpers.dfy`: the collaborators defined in other files, as the fields of
  an `Env` (`toKey`, `getApiLinks`, `buildFieldList`, `parseInt`, the
  non-filter field list, the default order, the config defaults, the lists of
  stringified fields). It also holds the stand-in for `arrayStringsToJson`,
  which replaces each listed string field with its parsed value
  (`DecodeRecord`, a definition, not a claim about the code).
- `samples.dfy`: the four parts above. The loops of the source are methods
  with invariants. Thrown JavaScript errors are `Failure(TypeError(..))`,
  which stands for what the route's catch handler receives.

Behaviour worth knowing:

- The code has no NotFound case. With the `arrayStringsToJson` stand-in,
  which passes null through, a missing aspect hash is joined as
  `aspect: null`. A missing sample fetched with a projection gives a record
  whose requested fields are all null. Under the same stand-in, only a
  missing sample fetched in full fails, because the join cannot set a
  property on null.
- The find-many join compares aspect names exactly, so case matters.
- Filtering, sorting and pagination are parsed but never applied.

## Model

| member | source | states |
|---|---|---|
| `Values.Lower` | cache/models/samples.js:113 | lower-casing keeps the length and lower-cases each character in place |
| `Values.AfterFirstBar` | cache/models/samples.js:114 | the text after the first `\|` is absent exactly when there is no `\|`; otherwise it is the suffix after a `\|` with none before it |
| `Values.UpToBar` | cache/models/samples.js:114 | the segment is the longest prefix without `\|`, so a `\|` or the end of the string follows it |
| `Values.SplitSecond` | cache/models/samples.js:220 | `split('\|')[1]` is undefined exactly when the name has no `\|`; otherwise it is a string without `\|`, shorter than the name |
| `Values.SplitSecondOfComposite` | cache/models/samples.js:114 | `split('\|')[1]` of `subject\|aspect` (possibly followed by more `\|` segments) is exactly `aspect` |
| `Values.SplitSecondOfLower` | cache/models/samples.js:113-114 | taking the aspect segment of the lower-cased name gives the lower-cased aspect segment of the original name |
| `Redis.Exec` | cache/models/samples.js:145-148 | the client's reply: `HGETALL` is null exactly when the hash is missing or empty, else an object with the hash's fields; `HMGET` is an array with one entry per requested field, nil exactly where the hash lacks that field |
| `Redis.ProjectionAgreesWithFullFetch` | cache/models/samples.js:118-159 | a projected fetch agrees with a full fetch on every requested field the hash holds, and gives nil for requested fields it lacks |
| `Samples.GetOptionsFromReq` | cache/models/samples.js:31-70 | fails exactly when a default order exists but no `sort` parameter does; `order` is the sort value when that is truthy, else the default order when that is truthy, else absent; `limit`/`offset` are set exactly when their parameter is truthy, to `parseInt(value, default)`; `filter` is present exactly when some parameter outside the non-filter list has a defined value, and then holds exactly those parameters mapped to their values |
| `Helpers.ArrayStringsToJson` | cache/models/samples.js:83-89 | stand-in for a helper defined elsewhere: an object stays an object with the same keys; null and undefined pass through unchanged |
| `Samples.CleanAddAspectToSample` | cache/models/samples.js:81-99 | fails exactly on a null sample; otherwise the result has the sample's keys plus `aspect` and `apiLinks`, every other field is the decoded sample field, `aspect` is the decoded aspect, and `apiLinks` is computed from the result's own `name` and the method |
| `Samples.JoinDecodesAndKeepsName` | tests/api/v1/redisEnabled/samples/get.js:64-98 | the joined record keeps the sample's original-case name, returns stringified `relatedLinks` and the aspect's `criticalRange` decoded, and nests the aspect's name under `aspect` |
| `Samples.AspectKeyOf` | cache/models/samples.js:113-142 | the aspect key is `toKey` of the lower-cased `split('\|')[1]` segment of the request name (undefined when there is no `\|`) |
| `Samples.KeysIgnoreCase` | cache/models/samples.js:113-142 | the sample key (`SampleKeyOf`, `toKey` of the lower-cased name) and the aspect key depend on the request name only through its lower-cased form |
| `Samples.BuildGetCommands` | cache/models/samples.js:113-143 | the batch has exactly two commands: first the sample fetch (`HMGET key f1..fn` in projection order when there is a projection, else `HGETALL key`), then `HGETALL` of the aspect key built from the name's segment after `\|` |
| `Samples.ZipReply` | cache/models/samples.js:151-156 | the rebuilt sample has exactly the requested fields; field `attrs[i]` holds reply position i (the last position for a repeated field), and every field's value comes from a position that requested it |
| `Samples.GetSampleFromRedis` | cache/models/samples.js:110-164 | fails when the options parser fails or the `key` parameter is not a string; otherwise the response is the join of the fetched sample (the projection of the lower-cased sample key, or the whole hash) with the `HGETALL` reply of the aspect key |
| `Samples.GetOneProjectionFields` | cache/models/samples.js:151-164 | a projected get-one always succeeds, has exactly the requested fields plus `aspect` and `apiLinks`, and each unstringified requested field holds the cache's value or nil |
| `Samples.GetOneMissingSampleThrows` | cache/models/samples.js:157-163 | a full get-one of a missing sample hash fails in the join |
| `Samples.GetOneMissingAspectJoinsNull` | cache/models/samples.js:140-164 | a missing aspect hash does not fail a get-one: the result carries `aspect: null` |
| `Samples.GetOneKeysOfCompositeName` | cache/models/samples.js:113-142 | for `subject\|aspect`, the sample key comes from the lower-cased name and the aspect key from the lower-cased aspect part |
| `Samples.BuildIndexCommands` | cache/models/samples.js:190-205 | one `HGETALL` per index entry, keyed by the lower-cased entry, in index order |
| `Samples.FindAspect` | cache/models/samples.js:219-221 | the search stops at the first aspect whose `name` equals the target, or throws at the first null aspect, whichever comes first; every aspect before the stop is an object with a different name |
| `Samples.JoinSample` | cache/models/samples.js:218-225 | the loop body for one sample: success only on a sample object, which gains exactly `aspect` and `apiLinks`; with any aspects present the sample must have a string name; it succeeds whenever the sample is an object with such a name and no aspect is null, and fails when the first aspect is null |
| `Samples.JoinAll` | cache/models/samples.js:218-227 | succeeds exactly when every sample joins; then one record per sample reply, in the same order, each being that sample's join |
| `Samples.FindSamplesFromRedis` | cache/models/samples.js:179-227 | fails when the options parser fails; otherwise succeeds exactly when every indexed sample joins, and then returns one record per sample-index entry, in index order, each the join of that entry's hash with the aspect replies |
| `Samples.JoinSamplePairsFirstMatch` | cache/models/samples.js:219-225 | a sample is joined, successfully, with the first aspect whose name equals the segment after `\|` of the sample's name |
| `Samples.JoinSampleWithoutMatch` | cache/models/samples.js:219-225 | a sample that no aspect matches is joined with `aspect: undefined` |
| `Samples.FindManyConsistentCacheJoinsAll` | tests/api/v1/redisEnabled/samples/get.js:40-51 | when every indexed sample hash exists and has a name and every indexed aspect hash exists, every sample's join succeeds; with `FindSamplesFromRedis`, and when the options parser does not throw, the response then has one record per indexed sample |

## Left out

- Cache I/O: `batch(..).execAsync`, `sortAsync` and `smembersAsync` are not modelled. The batch runs against a given store, and the two index listings are given sequences. The model does not check that the sample listing is alphabetical. `Promise.all` is treated as sequential.
- Timing (`reqStartTime`, `dbTime`), `u.logAPI`, `res.status().json` and `u.handleError` are left out. Handlers return the response body or the error their catch handler would receive. An error thrown by `getOptionsFromReq` or by `key.value.toLowerCase()` (line 113) escapes the route handler synchronously, outside the promise chain; the model returns it as a `Failure` like the others.
- `res.method`, passed to `getApiLinks`, is an arbitrary `Value` (it may be undefined); the model does not say where it comes from.
- `toKey`, `getApiLinks`, `buildFieldList`, `parseInt`, the non-filter field list, the stringified-field lists, the default order and the config defaults are defined in other files and are arbitrary functions and constants here. Only the `attributes` part of `buildFieldList`'s result is modelled. The radix argument of `parseInt` is passed on unchanged.
- `arrayStringsToJson` is defined in another file. The model uses a stand-in that replaces each listed string field with its parsed value and passes null or undefined through unchanged. A parse that throws on malformed stored data is not modelled.
- `Values.Lower` lower-cases ASCII letters only; Unicode case mapping is not modelled.
- JavaScript numbers are integers; `NaN` is not represented.
- `HMGET` with an empty field list: Redis rejects the command, but the model replies with an empty list. Either way the rebuilt sample is empty.
- Name wildcards, field filters, sorting and pagination are not applied, because the code only parses them.
- `api/v1/controllers/userTokens.js`, the view files and `tests/api/v1/generators/post.js` are not part of this model: they are a controller over models not shown, UI code and an integration test of another controller.
