/**
 * The two HTTP handlers of `/config` over an in-memory store of config maps:
 * GET decodes the stored pipeline document, POST merges the requested fragments
 * into it and writes the encoded result back under the fixed data key.
 */
module VectorApis {
  import opened Wrappers
  import opened GoMaps
  import opened Requests
  import opened VConfigUtils

  /** The data key under which a config map holds the pipeline document. */
  const VectorConfigFileName: string := "vector.yaml"

  const StatusOK: int := 200
  const StatusBadRequest: int := 400
  const StatusInternalServerError: int := 500

  /** A config map is addressed by namespace and name. */
  datatype RecordKey = RecordKey(namespace: string, name: string)

  /** A config map as far as the handlers use it: its (possibly nil) data table. */
  datatype ConfigMap = ConfigMap(data: GoMap<string>)

  type Store = map<RecordKey, ConfigMap>

  /**
   * Failures of the store that do not depend on its contents (the cluster being
   * unreachable, a rejected patch), supplied from outside.
   */
  datatype StoreFaults = StoreFaults(getError: Option<string>, patchError: Option<string>)

  /** A response body: `{"error": ...}`, a document, or nothing (after a recovered panic). */
  datatype Body<V> = ErrorBody(error: string) | ConfigBody(config: VectorConfig<V>) | NoBody

  datatype Response<V> = Response(status: int, body: Body<V>)

  /** A handler's response together with the store it leaves behind. */
  datatype Exchange<V> = Exchange(response: Response<V>, store: Store)

  /** `ctx.JSON(status, errorResponse(err))`. */
  function ErrorResponse<V>(status: int, message: string): Response<V>
  {
    Response(status, ErrorBody(message))
  }

  /** What the recovery middleware answers when a handler panics. */
  function PanicResponse<V>(): Response<V>
  {
    Response(StatusInternalServerError, NoBody)
  }

  /**
   * `ctx.JSON(http.StatusOK, cfg)`: the document as the body, unless the JSON writer
   * rejects it. gin's `Render` then panics and the recovery middleware answers
   * with its empty 500.
   */
  function Respond<V>(codec: Codec<V>, cfg: VectorConfig<V>): Response<V>
  {
    if codec.renders(cfg) then Response(StatusOK, ConfigBody(cfg)) else PanicResponse()
  }

  function NotFoundMessage(name: string): string
  {
    "configmaps \"" + name + "\" not found"
  }

  /** `ConfigMaps(namespace).Get(name)` against the store. */
  function FetchConfigMap(configMaps: Store, namespace: string, name: string, getError: Option<string>): (r: Result<ConfigMap, string>)
    ensures r.Success? <==> getError.None? && RecordKey(namespace, name) in configMaps
    ensures r.Success? ==> r.value == configMaps[RecordKey(namespace, name)]
  {
    if getError.Some? then Failure(getError.value)
    else if RecordKey(namespace, name) in configMaps then Success(configMaps[RecordKey(namespace, name)])
    else Failure(NotFoundMessage(name))
  }

  /** The stored document text: `configMap.Data[vectorConfigFileName]`, "" when absent. */
  function StoredText(cm: ConfigMap): string
  {
    Lookup(cm.data, VectorConfigFileName, "")
  }

  /** The response of `GET /config`. */
  function GetVectorConfigResponse<V>(configMaps: Store, codec: Codec<V>, req: GetVectorConfigRequest, faults: StoreFaults): Response<V>
  {
    if !RequiredFieldsPresent(req.configMapName, req.configMapNameSpace) then
      ErrorResponse(StatusBadRequest, ValidationMessage("getVectorConfigRequest", req.configMapName, req.configMapNameSpace))
    else
      match FetchConfigMap(configMaps, req.configMapNameSpace, req.configMapName, faults.getError)
      case Failure(e) => ErrorResponse(StatusInternalServerError, e)
      case Success(cm) =>
        match codec.unmarshal(StoredText(cm))
        case Failure(e) => ErrorResponse(StatusInternalServerError, e)
        case Success(cfg) => Respond(codec, cfg)
  }

  /** The response of `POST /config` and the store after it. */
  function AddNewTransformOutcome<V>(configMaps: Store, codec: Codec<V>, req: UpdateVectorConfigRequest<V>, faults: StoreFaults): Exchange<V>
  {
    if !RequiredFieldsPresent(req.configMapName, req.configMapNameSpace) then
      Exchange(ErrorResponse(StatusBadRequest, ValidationMessage("updateVectorConfigRequest", req.configMapName, req.configMapNameSpace)), configMaps)
    else
      match FetchConfigMap(configMaps, req.configMapNameSpace, req.configMapName, faults.getError)
      case Failure(e) => Exchange(ErrorResponse(StatusInternalServerError, e), configMaps)
      case Success(cm) =>
        var merge := UpdateVectorConfig(codec, StoredText(cm), req);
        match merge.status
        case NilMapAssignment => Exchange(PanicResponse(), configMaps)
        case UnmarshalFailed(e) => Exchange(ErrorResponse(StatusInternalServerError, e), configMaps)
        case MarshalFailed(e) => Exchange(ErrorResponse(StatusInternalServerError, e), configMaps)
        case NoError =>
          match Assign(cm.data, VectorConfigFileName, merge.vectorDataYaml)
          case None => Exchange(PanicResponse(), configMaps)
          case Some(data) =>
            if faults.patchError.Some? then
              Exchange(ErrorResponse(StatusInternalServerError, faults.patchError.value), configMaps)
            else
              Exchange(Respond(codec, merge.vectorConfig),
                       configMaps[RecordKey(req.configMapNameSpace, req.configMapName) := ConfigMap(data)])
  }

  /** The server: its store of config maps and the document codec it uses. */
  class Server<V> {
    var configMaps: Store
    const codec: Codec<V>

    constructor (codec: Codec<V>, configMaps: Store)
      ensures this.codec == codec && this.configMaps == configMaps
    {
      this.codec := codec;
      this.configMaps := configMaps;
    }

    /** `GET /config`: reads the store and never writes it. */
    method GetVectorConfig(req: GetVectorConfigRequest, faults: StoreFaults) returns (resp: Response<V>)
      ensures resp == GetVectorConfigResponse(configMaps, codec, req, faults)
    {
      if !RequiredFieldsPresent(req.configMapName, req.configMapNameSpace) {
        return ErrorResponse(StatusBadRequest, ValidationMessage("getVectorConfigRequest", req.configMapName, req.configMapNameSpace));
      }
      var configMap := FetchConfigMap(configMaps, req.configMapNameSpace, req.configMapName, faults.getError);
      if configMap.Failure? {
        return ErrorResponse(StatusInternalServerError, configMap.error);
      }
      var vectorConfig := codec.unmarshal(StoredText(configMap.value));
      if vectorConfig.Failure? {
        return ErrorResponse(StatusInternalServerError, vectorConfig.error);
      }
      return Respond(codec, vectorConfig.value);
    }

    /** `POST /config`: get, merge, patch the one data key, answer with the merged document. */
    method AddNewTransformInConfig(req: UpdateVectorConfigRequest<V>, faults: StoreFaults) returns (resp: Response<V>)
      modifies this
      ensures Exchange(resp, configMaps) == AddNewTransformOutcome(old(configMaps), codec, req, faults)
    {
      if !RequiredFieldsPresent(req.configMapName, req.configMapNameSpace) {
        return ErrorResponse(StatusBadRequest, ValidationMessage("updateVectorConfigRequest", req.configMapName, req.configMapNameSpace));
      }
      var configMap := FetchConfigMap(configMaps, req.configMapNameSpace, req.configMapName, faults.getError);
      if configMap.Failure? {
        return ErrorResponse(StatusInternalServerError, configMap.error);
      }
      var vectorConfigDataYaml, vectorConfig, status :=
        UpdateVectorConfigWithRequestedConfig(codec, StoredText(configMap.value), req);
      if status.NilMapAssignment? {
        return PanicResponse();
      }
      if status != NoError {
        return ErrorResponse(StatusInternalServerError, status.message);
      }
      // The patch closure assigns into the fetched copy's data before anything is sent.
      var data := Assign(configMap.value.data, VectorConfigFileName, vectorConfigDataYaml);
      if data.None? {
        return PanicResponse();
      }
      if faults.patchError.Some? {
        return ErrorResponse(StatusInternalServerError, faults.patchError.value);
      }
      // The store is written before the response is rendered, so a render failure keeps the write.
      configMaps := configMaps[RecordKey(req.configMapNameSpace, req.configMapName) := ConfigMap(data.value)];
      return Respond(codec, vectorConfig);
    }
  }

  // Properties of the two handlers.

  /** Both handlers answer 400 exactly when a required field is missing, without touching the store. */
  lemma ValidationRejects<V>(configMaps: Store, codec: Codec<V>, get: GetVectorConfigRequest, post: UpdateVectorConfigRequest<V>, faults: StoreFaults)
    ensures GetVectorConfigResponse(configMaps, codec, get, faults).status == StatusBadRequest
            <==> !RequiredFieldsPresent(get.configMapName, get.configMapNameSpace)
    ensures AddNewTransformOutcome(configMaps, codec, post, faults).response.status == StatusBadRequest
            <==> !RequiredFieldsPresent(post.configMapName, post.configMapNameSpace)
    ensures !RequiredFieldsPresent(post.configMapName, post.configMapNameSpace) ==>
              AddNewTransformOutcome(configMaps, codec, post, faults).store == configMaps
  {
  }

  /** GET of a record that is not in the store gives 500 with the not-found message. */
  lemma GetMissingRecordRejected<V>(configMaps: Store, codec: Codec<V>, req: GetVectorConfigRequest, faults: StoreFaults)
    requires RequiredFieldsPresent(req.configMapName, req.configMapNameSpace) && faults.getError.None?
    requires RecordKey(req.configMapNameSpace, req.configMapName) !in configMaps
    ensures GetVectorConfigResponse(configMaps, codec, req, faults)
            == ErrorResponse(StatusInternalServerError, NotFoundMessage(req.configMapName))
  {
  }

  /** POST to a record that is not in the store gives 500 with the not-found message and writes nothing. */
  lemma UpdateMissingRecordRejected<V>(configMaps: Store, codec: Codec<V>, req: UpdateVectorConfigRequest<V>, faults: StoreFaults)
    requires RequiredFieldsPresent(req.configMapName, req.configMapNameSpace) && faults.getError.None?
    requires RecordKey(req.configMapNameSpace, req.configMapName) !in configMaps
    ensures AddNewTransformOutcome(configMaps, codec, req, faults)
            == Exchange(ErrorResponse(StatusInternalServerError, NotFoundMessage(req.configMapName)), configMaps)
  {
  }

  /** A failing store Get makes GET answer 500 with the store's message. */
  lemma GetFaultRejected<V>(configMaps: Store, codec: Codec<V>, req: GetVectorConfigRequest, faults: StoreFaults)
    requires RequiredFieldsPresent(req.configMapName, req.configMapNameSpace) && faults.getError.Some?
    ensures GetVectorConfigResponse(configMaps, codec, req, faults)
            == ErrorResponse(StatusInternalServerError, faults.getError.value)
  {
  }

  /** A failing store Get makes POST answer 500 with the store's message, and nothing is written. */
  lemma UpdateGetFaultRejected<V>(configMaps: Store, codec: Codec<V>, req: UpdateVectorConfigRequest<V>, faults: StoreFaults)
    requires RequiredFieldsPresent(req.configMapName, req.configMapNameSpace) && faults.getError.Some?
    ensures AddNewTransformOutcome(configMaps, codec, req, faults)
            == Exchange(ErrorResponse(StatusInternalServerError, faults.getError.value), configMaps)
  {
  }

  /** Stored text that does not decode makes GET answer 500 with the decoder's message. */
  lemma GetDecodeFailureRejected<V>(configMaps: Store, codec: Codec<V>, req: GetVectorConfigRequest, faults: StoreFaults)
    requires RequiredFieldsPresent(req.configMapName, req.configMapNameSpace) && faults.getError.None?
    requires RecordKey(req.configMapNameSpace, req.configMapName) in configMaps
    ensures
      var decoded := codec.unmarshal(StoredText(configMaps[RecordKey(req.configMapNameSpace, req.configMapName)]));
      decoded.Failure? ==>
        GetVectorConfigResponse(configMaps, codec, req, faults) == ErrorResponse(StatusInternalServerError, decoded.error)
  {
  }

  /**
   * Stored text that does not decode makes POST answer 500 with the decoder's
   * message; a merged document that does not encode, 500 with the encoder's message.
   * Nothing is written.
   */
  lemma UpdateCodecFailuresRejected<V>(configMaps: Store, codec: Codec<V>, req: UpdateVectorConfigRequest<V>, faults: StoreFaults)
    requires RequiredFieldsPresent(req.configMapName, req.configMapNameSpace) && faults.getError.None?
    requires RecordKey(req.configMapNameSpace, req.configMapName) in configMaps
    ensures
      var decoded := codec.unmarshal(StoredText(configMaps[RecordKey(req.configMapNameSpace, req.configMapName)]));
      && (decoded.Failure? ==>
            AddNewTransformOutcome(configMaps, codec, req, faults)
            == Exchange(ErrorResponse(StatusInternalServerError, decoded.error), configMaps))
      && (decoded.Success? && Assignable(decoded.value, req) && codec.marshal(MergedConfig(decoded.value, req)).Failure? ==>
            AddNewTransformOutcome(configMaps, codec, req, faults)
            == Exchange(ErrorResponse(StatusInternalServerError, codec.marshal(MergedConfig(decoded.value, req)).error), configMaps))
  {
  }

  /**
   * A stored document that decodes but that the JSON writer rejects makes GET
   * answer the empty 500 of a recovered panic.
   */
  lemma GetRenderFailurePanics<V>(configMaps: Store, codec: Codec<V>, req: GetVectorConfigRequest, faults: StoreFaults)
    requires RequiredFieldsPresent(req.configMapName, req.configMapNameSpace) && faults.getError.None?
    requires RecordKey(req.configMapNameSpace, req.configMapName) in configMaps
    ensures
      var decoded := codec.unmarshal(StoredText(configMaps[RecordKey(req.configMapNameSpace, req.configMapName)]));
      decoded.Success? && !codec.renders(decoded.value) ==>
        GetVectorConfigResponse(configMaps, codec, req, faults) == PanicResponse()
  {
  }

  /**
   * GET answers 200, 400 or 500. It answers 200 exactly when the fields are present,
   * the record is found, its text decodes and the document renders, and then returns
   * that document; every other answer carries an error message or is the empty 500
   * of a recovered panic, and the latter happens exactly when only rendering failed.
   */
  lemma GetSucceedsWithStoredDocument<V>(configMaps: Store, codec: Codec<V>, req: GetVectorConfigRequest, faults: StoreFaults)
    ensures
      var key := RecordKey(req.configMapNameSpace, req.configMapName);
      var r := GetVectorConfigResponse(configMaps, codec, req, faults);
      && r.status in {StatusOK, StatusBadRequest, StatusInternalServerError}
      && (r.status == StatusOK <==>
            && RequiredFieldsPresent(req.configMapName, req.configMapNameSpace)
            && faults.getError.None? && key in configMaps
            && codec.unmarshal(StoredText(configMaps[key])).Success?
            && codec.renders(codec.unmarshal(StoredText(configMaps[key])).value))
      && (r.status == StatusOK ==> r.body == ConfigBody(codec.unmarshal(StoredText(configMaps[key])).value))
      && (r == PanicResponse() <==>
            && RequiredFieldsPresent(req.configMapName, req.configMapNameSpace)
            && faults.getError.None? && key in configMaps
            && codec.unmarshal(StoredText(configMaps[key])).Success?
            && !codec.renders(codec.unmarshal(StoredText(configMaps[key])).value))
      && (r.status != StatusOK ==> r.body.ErrorBody? || r == PanicResponse())
  {
  }

  /**
   * Every step of POST up to and including the Patch call succeeds: fields, Get,
   * decode, merge, encode, the patch closure and the Patch call.
   */
  ghost predicate UpdateWrites<V>(configMaps: Store, codec: Codec<V>, req: UpdateVectorConfigRequest<V>, faults: StoreFaults)
  {
    var key := RecordKey(req.configMapNameSpace, req.configMapName);
    && RequiredFieldsPresent(req.configMapName, req.configMapNameSpace)
    && faults.getError.None? && key in configMaps
    && codec.unmarshal(StoredText(configMaps[key])).Success?
    && Assignable(codec.unmarshal(StoredText(configMaps[key])).value, req)
    && codec.marshal(MergedConfig(codec.unmarshal(StoredText(configMaps[key])).value, req)).Success?
    && configMaps[key].data.Table?
    && faults.patchError.None?
  }

  /** The document a POST whose steps up to the Patch succeed answers with. */
  ghost function WrittenConfig<V>(configMaps: Store, codec: Codec<V>, req: UpdateVectorConfigRequest<V>, faults: StoreFaults): VectorConfig<V>
    requires UpdateWrites(configMaps, codec, req, faults)
  {
    MergedConfig(codec.unmarshal(StoredText(configMaps[RecordKey(req.configMapNameSpace, req.configMapName)])).value, req)
  }

  /** Every step of POST succeeds, the final rendering of the merged document included. */
  ghost predicate UpdateSucceeds<V>(configMaps: Store, codec: Codec<V>, req: UpdateVectorConfigRequest<V>, faults: StoreFaults)
  {
    UpdateWrites(configMaps, codec, req, faults) && codec.renders(WrittenConfig(configMaps, codec, req, faults))
  }

  /** The store has been written, and then the JSON writer rejects the merged document. */
  ghost predicate RenderFailsAfterWrite<V>(configMaps: Store, codec: Codec<V>, req: UpdateVectorConfigRequest<V>, faults: StoreFaults)
  {
    UpdateWrites(configMaps, codec, req, faults) && !codec.renders(WrittenConfig(configMaps, codec, req, faults))
  }

  /**
   * POST answers 200, 400 or 500. A non-200 answer carries an error message or is
   * the empty 500 of a recovered panic, and it leaves the store as it was, except
   * when the store was written and only the rendering of the answer failed. Nothing
   * is written unless every step up to the Patch succeeds.
   */
  lemma UpdateFailuresWriteNothing<V>(configMaps: Store, codec: Codec<V>, req: UpdateVectorConfigRequest<V>, faults: StoreFaults)
    ensures
      var x := AddNewTransformOutcome(configMaps, codec, req, faults);
      && x.response.status in {StatusOK, StatusBadRequest, StatusInternalServerError}
      && (x.response.status != StatusOK ==>
            x.store == configMaps || (RenderFailsAfterWrite(configMaps, codec, req, faults) && x.response == PanicResponse()))
      && (!UpdateWrites(configMaps, codec, req, faults) ==> x.store == configMaps)
      && (x.response.status != StatusOK ==> x.response.body.ErrorBody? || x.response == PanicResponse())
      && (x.response.status == StatusOK <==> x.response.body.ConfigBody?)
  {
  }

  /**
   * A panic is a nil section the request writes into, a record with nil data, or
   * the JSON writer rejecting the merged document after the store was written.
   */
  lemma UpdatePanicConditions<V>(configMaps: Store, codec: Codec<V>, req: UpdateVectorConfigRequest<V>, faults: StoreFaults)
    requires RequiredFieldsPresent(req.configMapName, req.configMapNameSpace) && faults.getError.None?
    requires RecordKey(req.configMapNameSpace, req.configMapName) in configMaps
    ensures
      var cm := configMaps[RecordKey(req.configMapNameSpace, req.configMapName)];
      var decoded := codec.unmarshal(StoredText(cm));
      AddNewTransformOutcome(configMaps, codec, req, faults).response == PanicResponse()
      <==>
      decoded.Success? &&
      (|| !Assignable(decoded.value, req)
       || (&& codec.marshal(MergedConfig(decoded.value, req)).Success?
           && (|| cm.data.Nil?
               || (faults.patchError.None? && !codec.renders(MergedConfig(decoded.value, req))))))
  {
  }

  /**
   * A render failure after the Patch answers the empty 500 of a recovered panic but
   * keeps the write: the record's document entry holds the encoded merged document.
   */
  lemma UpdateRenderFailureKeepsWrite<V>(configMaps: Store, codec: Codec<V>, req: UpdateVectorConfigRequest<V>, faults: StoreFaults)
    requires RenderFailsAfterWrite(configMaps, codec, req, faults)
    ensures
      var key := RecordKey(req.configMapNameSpace, req.configMapName);
      var written := codec.marshal(WrittenConfig(configMaps, codec, req, faults)).value;
      AddNewTransformOutcome(configMaps, codec, req, faults)
      == Exchange(PanicResponse(), configMaps[key := ConfigMap(Table(configMaps[key].data.entries[VectorConfigFileName := written]))])
  {
  }

  /**
   * POST answers 200 exactly when every step succeeds, and it then returns the merged
   * document. Whenever the steps up to the Patch succeed, in the store only the named
   * record changes, and in it only the document entry, which now holds the encoding
   * of that document.
   */
  lemma UpdateSuccessWritesMergedDocument<V>(configMaps: Store, codec: Codec<V>, req: UpdateVectorConfigRequest<V>, faults: StoreFaults)
    ensures AddNewTransformOutcome(configMaps, codec, req, faults).response.status == StatusOK
            <==> UpdateSucceeds(configMaps, codec, req, faults)
    ensures UpdateSucceeds(configMaps, codec, req, faults) ==>
              AddNewTransformOutcome(configMaps, codec, req, faults).response
              == Response(StatusOK, ConfigBody(WrittenConfig(configMaps, codec, req, faults)))
    ensures UpdateWrites(configMaps, codec, req, faults) ==>
      var key := RecordKey(req.configMapNameSpace, req.configMapName);
      var x := AddNewTransformOutcome(configMaps, codec, req, faults);
      var before := configMaps[key].data.entries;
      && x.store.Keys == configMaps.Keys
      && (forall k :: k in configMaps && k != key ==> x.store[k] == configMaps[k])
      && x.store[key].data.Table?
      && x.store[key].data.entries.Keys == before.Keys + {VectorConfigFileName}
      && x.store[key].data.entries[VectorConfigFileName] == codec.marshal(WrittenConfig(configMaps, codec, req, faults)).value
      && (forall d :: d in before && d != VectorConfigFileName ==> x.store[key].data.entries[d] == before[d])
  {
  }

  /** A Patch call that fails, after every earlier step succeeded, gives 500 with its message and writes nothing. */
  lemma PatchFailureRejected<V>(configMaps: Store, codec: Codec<V>, req: UpdateVectorConfigRequest<V>, faults: StoreFaults)
    requires UpdateWrites(configMaps, codec, req, faults.(patchError := None))
    requires faults.patchError.Some?
    ensures AddNewTransformOutcome(configMaps, codec, req, faults)
            == Exchange(ErrorResponse(StatusInternalServerError, faults.patchError.value), configMaps)
  {
  }

  /**
   * What the document codec guarantees: decoding what it encodes gives the document
   * back with every nil section read as an empty one, and it encodes a nil section
   * exactly as it encodes an empty one.
   */
  ghost predicate RoundTripsUpToNil<V(!new)>(codec: Codec<V>)
  {
    && (forall c: VectorConfig<V> :: codec.marshal(c).Success? ==> codec.unmarshal(codec.marshal(c).value) == Success(Normalized(c)))
    && (forall c1: VectorConfig<V>, c2: VectorConfig<V> :: Normalized(c1) == Normalized(c2) ==> codec.marshal(c1) == codec.marshal(c2))
  }

  /**
   * What the JSON writer guarantees: a nil section (written as `null`) is accepted
   * exactly when an empty one (`{}`) is, so a document renders exactly when its
   * read-back form does.
   */
  ghost predicate RendersUpToNil<V(!new)>(codec: Codec<V>)
  {
    forall c: VectorConfig<V> :: codec.renders(Normalized(c)) == codec.renders(c)
  }

  /**
   * A GET of the record a POST has just updated returns the POST's document with
   * its nil sections read back as empty ones; the two answers agree exactly when
   * the merged document has no nil section.
   */
  lemma GetAfterUpdateReturnsWrittenDocument<V(!new)>(configMaps: Store, codec: Codec<V>, req: UpdateVectorConfigRequest<V>, faults: StoreFaults)
    requires RoundTripsUpToNil(codec) && RendersUpToNil(codec)
    requires AddNewTransformOutcome(configMaps, codec, req, faults).response.status == StatusOK
    ensures
      var x := AddNewTransformOutcome(configMaps, codec, req, faults);
      var get := GetVectorConfigResponse(x.store, codec, GetVectorConfigRequest(req.configMapName, req.configMapNameSpace), StoreFaults(None, None));
      && x.response.body.ConfigBody?
      && get == Response(StatusOK, ConfigBody(Normalized(x.response.body.config)))
      && (get == x.response <==> !HasNilSection(x.response.body.config))
  {
  }

  /**
   * Repeating a successful POST with no faults leaves the store as the first one
   * left it, and answers with the first answer's document read back (nil sections
   * empty).
   */
  lemma RepeatedUpdateIsStable<V(!new)>(configMaps: Store, codec: Codec<V>, req: UpdateVectorConfigRequest<V>, faults: StoreFaults)
    requires RoundTripsUpToNil(codec) && RendersUpToNil(codec)
    requires AddNewTransformOutcome(configMaps, codec, req, faults).response.status == StatusOK
    ensures
      var first := AddNewTransformOutcome(configMaps, codec, req, faults);
      var second := AddNewTransformOutcome(first.store, codec, req, StoreFaults(None, None));
      && first.response.body.ConfigBody?
      && second.response == Response(StatusOK, ConfigBody(Normalized(first.response.body.config)))
      && second.store == first.store
  {
    var key := RecordKey(req.configMapNameSpace, req.configMapName);
    var cm := configMaps[key];
    var decoded := codec.unmarshal(StoredText(cm)).value;
    var merged := MergedConfig(decoded, req);
    var normal := Normalized(merged);
    var first := AddNewTransformOutcome(configMaps, codec, req, faults);
    MergeOfNormalizedIsStable(decoded, req);
    assert codec.unmarshal(StoredText(first.store[key])) == Success(normal);
    assert Normalized(normal) == Normalized(merged);
    assert codec.marshal(normal) == codec.marshal(merged);
    var data := first.store[key].data;
    assert data.entries[VectorConfigFileName := codec.marshal(merged).value] == data.entries;
  }
}
