# vector-config-server: merge engine and `/config` handlers

This project models the core of vector-config-server, a small HTTP service for a log/metrics
pipeline configuration. The pipeline document has a `data_dir` and three keyed sections:
`sources`, `transforms` and `sinks`. It is stored as YAML text under one data key of a
Kubernetes config map. The model covers:

- **The merge engine** (`VConfigUtils`). `UpdateVectorConfigWithRequestedConfig` decodes the
  stored text. It runs one `for key, data := range` loop per section, assigning each requested
  entry into that section. Then it encodes the result. Section values are opaque, so they are a
  type parameter `V`. The codecs are a `Codec<V>` the caller supplies: YAML decoding and YAML
  encoding, each able to fail with a message, and `renders`, whether the JSON response writer
  accepts a document.
- **The handlers** (`VectorApis`). `GET /config` and `POST /config` are methods of a `Server`
  class. Its field `configMaps` is an in-memory store keyed by `(namespace, name)`. Each method is
  proved equal to a function of the store and the request: `GetVectorConfigResponse` and
  `AddNewTransformOutcome`. The lemmas below state what those functions guarantee.
- **Go's nil maps** (`GoMaps`). A section missing from the stored YAML decodes to a nil map.
  Reading a nil map gives the zero value; assigning into one panics. `GoMap<V>` keeps that
  distinction, so a POST writing into a missing section is modelled as a panic. The same goes for
  a config map whose `Data` is nil. The router is `gin.Default()` (api/server.go:41), whose recovery
  middleware turns a panic into status 500 with an empty body (`PanicResponse`).
- **Request bodies** (`Requests`). A JSON field left out binds to Go's zero value. A missing
  string is `""`, and `binding:"required"` rejects it. A missing fragment is a nil map; ranging over it visits nothing, so the model uses an empty map.

The model follows the code:

- Absent sections stay nil; they are not defaulted to empty maps.
- There is one Get and one Patch, with no version token and no retry on conflict.
- `UpdateVectorConfigWithRequestedConfig` is declared with two results (api/vconfig_utils.go:14).
  Its caller, however, destructures three: text, merged config and error
  (api/vector_apis.go:63, 79). The model uses the three-result shape the caller expects. On error
  it returns Go's zero values: `""` and `VectorConfig{}`.

The POST response is the merged document that was written, not a re-read of the store. GET has
no `modifies` clause, so it cannot change the store.

Answering 200 with a document (`ctx.JSON`, api/vector_apis.go:37, 79) can itself fail. yaml.v3
decodes some documents that encoding/json refuses to encode: a nested mapping with a non-string
key, or `.nan`/`.inf`. The model follows gin releases whose `Render` panics on such an error, so
the recovery middleware answers the empty 500 (`Respond`). In POST this happens after the Patch,
so the store keeps the write (`UpdateRenderFailureKeepsWrite`).

A nil section and an empty one are written the same way (`{}`), but only the empty one reads back.
So a POST on a document that lacks a section answers with that section nil (JSON `null`), while a
GET of the record just written answers with it empty (`{}`). `Normalized` is a document as it reads
back. The codec assumption `RoundTripsUpToNil` says that decoding an encoded document gives its
normalized form, and that a nil section encodes exactly as an empty one.

## Model

| member | source | states |
|---|---|---|
| `GoMaps.LookupAfterAssign` | api/vector_apis.go:31-71 | once a non-nil map has been assigned a key, reading that key (as `StoredText` reads `Data[vectorConfigFileName]`) gives the assigned value, and every other key reads as before; the assignment does not panic |
| `GoMaps.Assign` | api/vector_apis.go:71 | assigning into a map panics exactly when it is nil; otherwise it sets that key and keeps every other key |
| `Requests.ValidationMessage` | api/vector_apis.go:13-16 | a request missing a required field always gets a non-empty error message |
| `VConfigUtils.Overlay` | api/vconfig_utils.go:22-33 | after the loop, every requested key holds exactly the requested value and every other key keeps its old value; the key set is the union of old and requested keys; an empty fragment changes nothing; a nil section stays nil |
| `VConfigUtils.MergedConfig` | api/vconfig_utils.go:7-33 | `data_dir` is never changed; a section with no requested entries is unchanged; an empty request returns the decoded document itself |
| `VConfigUtils.UpdateVectorConfig` | api/vconfig_utils.go:14-40 | a decode failure is reported with the decoder's message; a panic happens exactly when a nil section receives entries; an encode failure is reported with the encoder's message; success happens exactly when decode, merge and encode all succeed, and then the config is the merged document and the text is its encoding; on any failure the text is empty |
| `VConfigUtils.AssignEntries` | api/vconfig_utils.go:22-33 | the range loop, visiting keys in any order, panics exactly when the section is nil and the fragment is non-empty; otherwise it yields the overlay |
| `VConfigUtils.UpdateVectorConfigWithRequestedConfig` | api/vconfig_utils.go:14-40 | the decode, three-loop and encode sequence returns exactly the triple `UpdateVectorConfig` describes |
| `VConfigUtils.AssignInOrderOverlays` | api/vconfig_utils.go:22-33 | assigning entries one by one in a given order yields the old map overlaid with exactly the visited entries |
| `VConfigUtils.AssignOrderIrrelevant` | api/vconfig_utils.go:22-33 | any two orders that visit all of a fragment's keys give the same map, namely the overlay |
| `VConfigUtils.SectionsIndependent` | api/vconfig_utils.go:7-33 | each result section depends only on the request fragment of the same name |
| `VConfigUtils.MergeIdempotent` | api/vconfig_utils.go:22-33 | overlaying the same request a second time changes nothing |
| `VConfigUtils.Normalized` | api/vconfig_utils.go:7-12 | the read-back form of a document has no nil section, keeps `data_dir` and every non-nil section, and equals the document exactly when it has no nil section |
| `VConfigUtils.MergeOfNormalizedIsStable` | api/vconfig_utils.go:22-33 | merging a request again into the read-back form of a merged document changes nothing |
| `VConfigUtils.AddTransformsScenario` | api/vector_api_test.go:156-281 | on the test document, adding `filter_test` and `filter_test_2` keeps `filter_k8s_logs`, adds both new transforms and leaves sinks, sources and `data_dir` unchanged |
| `VectorApis.FetchConfigMap` | api/vector_apis.go:24-28 | the store lookup succeeds exactly when there is no transport error and the record exists, and then it returns that record |
| `VectorApis.Server.constructor` | api/server.go:19-38 | the server starts with the given codec and store |
| `VectorApis.Server.GetVectorConfig` | api/vector_apis.go:18-39 | the GET sequence (validate, get, decode, respond, where responding fails when the document does not render) returns `GetVectorConfigResponse` and writes nothing |
| `VectorApis.Server.AddNewTransformInConfig` | api/vector_apis.go:49-80 | the POST sequence (validate, get, merge, patch, respond, where responding fails after the write when the document does not render) produces the response and the new store that `AddNewTransformOutcome` gives |
| `VectorApis.ValidationRejects` | api/vector_apis.go:20-54 | both handlers answer 400 if and only if a required field is missing or empty, and POST then writes nothing |
| `VectorApis.GetMissingRecordRejected` | api/vector_apis.go:24-28 | GET of a record absent from the store gives 500 with the not-found message |
| `VectorApis.UpdateMissingRecordRejected` | api/vector_apis.go:57-61 | POST to a record absent from the store gives 500 with the not-found message, and the store is unchanged |
| `VectorApis.GetFaultRejected` | api/vector_apis.go:24-28 | a failing store Get makes GET answer 500 with its message |
| `VectorApis.UpdateGetFaultRejected` | api/vector_apis.go:57-61 | a failing store Get makes POST answer 500 with its message, and the store is unchanged |
| `VectorApis.GetDecodeFailureRejected` | api/vector_apis.go:30-35 | stored text that does not decode makes GET answer 500 with the decoder's message |
| `VectorApis.UpdateCodecFailuresRejected` | api/vector_apis.go:63-67 | stored text that does not decode makes POST answer 500 with the decoder's message; a merged document that does not encode, 500 with the encoder's message; nothing is written |
| `VectorApis.GetRenderFailurePanics` | api/vector_apis.go:30-37 | a stored document that decodes but does not render as JSON makes GET answer the empty 500 of a recovered panic |
| `VectorApis.GetSucceedsWithStoredDocument` | api/vector_apis.go:18-39 | GET answers only 200, 400 or 500; 200 if and only if the fields are present, the record is found, its text decodes and the document renders; the body is then the decoded document; the empty 500 of a panic happens if and only if only the rendering failed; every other answer carries an `error` field |
| `VectorApis.UpdateFailuresWriteNothing` | api/vector_apis.go:49-80 | POST answers only 200, 400 or 500; nothing is written unless every step up to the Patch succeeds; a non-200 answer is an `error` body or the empty 500 of a recovered panic, and it leaves the store unchanged except when the store was written and then the answer failed to render; 200 comes with a document |
| `VectorApis.UpdatePanicConditions` | api/vector_apis.go:63-79 | once the record is found, POST panics if and only if the decoded document has a nil section that receives entries, or the merge encodes and the record's data is nil, or the merge encodes, the Patch succeeds and the merged document does not render |
| `VectorApis.UpdateRenderFailureKeepsWrite` | api/vector_apis.go:70-79 | when every step up to the Patch succeeds and the merged document does not render, POST answers the empty 500 and the store holds the written record, whose `vector.yaml` entry is the encoded merged document |
| `VectorApis.UpdateSuccessWritesMergedDocument` | api/vector_apis.go:63-79 | POST answers 200 if and only if fields, Get, decode, merge, encode, the patch closure, Patch and the rendering of the answer all succeed; it then returns the merged document; whenever the steps up to Patch succeed, in the store only the named record changes, and in it only the `vector.yaml` entry, which now holds the encoding of that document |
| `VectorApis.PatchFailureRejected` | api/vector_apis.go:70-77 | a failing Patch, after every earlier step succeeded, gives 500 with its message and writes nothing |
| `VectorApis.GetAfterUpdateReturnsWrittenDocument` | api/vector_apis.go:18-80 | if the codecs round-trip and render up to nil sections, a GET right after a successful POST returns the POST's document with nil sections read back as empty; the two answers are equal exactly when the merged document has no nil section |
| `VectorApis.RepeatedUpdateIsStable` | api/vector_apis.go:57-79 | if the codecs round-trip and render up to nil sections, repeating a successful POST leaves the same store and answers with the first answer's document, normalized |

## Left out

- YAML decoding and encoding (gopkg.in/yaml.v3) and JSON response encoding (encoding/json) are foreign libraries. They are the abstract `Codec<V>`: `unmarshal` and `marshal` for YAML, and `renders` for whether the JSON writer accepts a document. JSON decoding of the request is the binding outcome in `Requests`. No round trip is assumed, except where a lemma requires `RoundTripsUpToNil` and `RendersUpToNil`; those assumptions describe how yaml.v3 and encoding/json treat nil maps, and they are not proved here.
- The render failure is modelled as gin's panicking `Render`. gin releases that record the error instead answer 200 with no body; the model does not cover those releases.
- `RoundTripsUpToNil` also takes every section value to round-trip exactly. For yaml.v3 this holds only up to JSON rendering: a number in a request arrives as a float64 and reads back as an int, and both are written as the same JSON number.
- The JSON response body is not modelled as text. A nil section appears there as `null` and an empty one as `{}`; the model keeps the two apart as `Nil` and `Table(map[])`.
- The gin router, `ServeHTTP` and JSON binding are framework plumbing. Only the outcome of binding is modelled: whether the required fields are non-empty. A malformed JSON body, which also gives 400, is not modelled.
- `Requests.ValidationMessage` follows the validator's message format. That library is not part of this model, so the exact wording is not guaranteed.
- The Kubernetes client is network I/O and is replaced by the `configMaps` map. Its transport failures on Get and its failures on Patch are the `StoreFaults` parameter. The not-found message copies the API server's wording.
- `core_util.PatchConfigMap` is an unseen library. It is modelled only as "apply the closure to the fetched record, then store it or fail". Strategic-merge diffs and the unchanged-object short cut are not modelled.
- Concurrent requests and any conflict-retry loop are out of scope: the code does a single Get then Patch with no version check.
- The value of `vectorConfigFileName` is declared outside the files shown. The model uses `"vector.yaml"`.
- Process start-up, `NewServer`'s client construction, `Config`/`LoadConfig`, logging and the test helpers (`RandomString`, fixtures) are plumbing.
