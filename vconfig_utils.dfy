/**
 * The merge engine: decode the stored pipeline document, overlay the requested
 * sources, transforms and sinks onto it key by key, and encode the result.
 * Section values are opaque to the merge, so they are a type parameter V.
 */
module VConfigUtils {
  import opened Wrappers
  import opened GoMaps
  import opened Requests

  /** The pipeline document: a data directory and three keyed sections. */
  datatype VectorConfig<V> = VectorConfig(
    dataDir: string,
    sinks: GoMap<V>,
    transforms: GoMap<V>,
    sources: GoMap<V>)

  /** Go's `VectorConfig{}`: every section nil. */
  function ZeroConfig<V>(): VectorConfig<V>
  {
    VectorConfig("", Nil, Nil, Nil)
  }

  /**
   * The document codecs, supplied from outside: decoding stored YAML text (which
   * can fail), encoding a document as YAML (which can fail too), and whether the
   * JSON response writer accepts a document. None of them is interpreted.
   */
  datatype Codec<!V> = Codec(
    unmarshal: string -> Result<VectorConfig<V>, string>,
    marshal: VectorConfig<V> -> Result<string, string>,
    renders: VectorConfig<V> -> bool)

  /** The `err` result of the merge; a nil-map assignment is the run-time panic. */
  datatype MergeStatus = NoError | UnmarshalFailed(message: string) | MarshalFailed(message: string) | NilMapAssignment

  /** The three results the caller destructures: encoded text, merged document, error. */
  datatype MergeResult<V> = MergeResult(vectorDataYaml: string, vectorConfig: VectorConfig<V>, status: MergeStatus)

  /** Keeps the entries of `m` whose keys lie in `keys`. */
  function Restrict<V>(m: map<string, V>, keys: set<string>): (r: map<string, V>)
    ensures r.Keys == m.Keys * keys
    ensures forall k :: k in r ==> r[k] == m[k]
  {
    map k | k in m && k in keys :: m[k]
  }

  /** Assigning every entry of `fragment` into `section` does not panic. */
  predicate CanOverlay<V>(section: GoMap<V>, fragment: map<string, V>)
  {
    section.Table? || fragment == map[]
  }

  /**
   * A section after every entry of the request fragment has been assigned into it:
   * requested keys take the requested value, all other keys keep theirs.
   */
  function Overlay<V>(section: GoMap<V>, fragment: map<string, V>): (r: GoMap<V>)
    requires CanOverlay(section, fragment)
    ensures r.Nil? <==> section.Nil?
    ensures r.Table? ==> r.entries.Keys == section.entries.Keys + fragment.Keys
    ensures forall k :: k in fragment ==> r.Table? && k in r.entries && r.entries[k] == fragment[k]
    ensures forall k :: section.Table? && k in section.entries && k !in fragment ==> r.Table? && r.entries[k] == section.entries[k]
    ensures fragment == map[] ==> r == section
  {
    match section
    case Nil => Nil
    case Table(m) => Table(m + fragment)
  }

  /** No section the request writes into is nil. */
  predicate Assignable<V>(cfg: VectorConfig<V>, req: UpdateVectorConfigRequest<V>)
  {
    && CanOverlay(cfg.sources, req.sources)
    && CanOverlay(cfg.transforms, req.transforms)
    && CanOverlay(cfg.sinks, req.sinks)
  }

  /**
   * The decoded document with the request's fragments overlaid: `data_dir` kept,
   * each section changed only by the fragment of the same name, an empty request
   * changing nothing.
   */
  function MergedConfig<V>(cfg: VectorConfig<V>, req: UpdateVectorConfigRequest<V>): (r: VectorConfig<V>)
    requires Assignable(cfg, req)
    ensures r.dataDir == cfg.dataDir
    ensures req.sources == map[] ==> r.sources == cfg.sources
    ensures req.transforms == map[] ==> r.transforms == cfg.transforms
    ensures req.sinks == map[] ==> r.sinks == cfg.sinks
    ensures req.sources == map[] && req.transforms == map[] && req.sinks == map[] ==> r == cfg
  {
    VectorConfig(
      cfg.dataDir,
      Overlay(cfg.sinks, req.sinks),
      Overlay(cfg.transforms, req.transforms),
      Overlay(cfg.sources, req.sources))
  }

  /** What `UpdateVectorConfigWithRequestedConfig` returns for a stored text and a request. */
  function UpdateVectorConfig<V>(codec: Codec<V>, currentConfig: string, req: UpdateVectorConfigRequest<V>): (r: MergeResult<V>)
    ensures codec.unmarshal(currentConfig).Failure? ==>
              r.status == UnmarshalFailed(codec.unmarshal(currentConfig).error)
    ensures r.status.NilMapAssignment? <==>
              codec.unmarshal(currentConfig).Success? && !Assignable(codec.unmarshal(currentConfig).value, req)
    ensures r.status == NoError <==>
              && codec.unmarshal(currentConfig).Success?
              && Assignable(codec.unmarshal(currentConfig).value, req)
              && codec.marshal(MergedConfig(codec.unmarshal(currentConfig).value, req)).Success?
    ensures r.status == NoError ==>
              && r.vectorConfig == MergedConfig(codec.unmarshal(currentConfig).value, req)
              && codec.marshal(r.vectorConfig) == Success(r.vectorDataYaml)
    ensures codec.unmarshal(currentConfig).Success? && Assignable(codec.unmarshal(currentConfig).value, req)
            && codec.marshal(MergedConfig(codec.unmarshal(currentConfig).value, req)).Failure? ==>
              r.status == MarshalFailed(codec.marshal(MergedConfig(codec.unmarshal(currentConfig).value, req)).error)
    ensures r.status != NoError ==> r.vectorDataYaml == "" && r.vectorConfig == ZeroConfig()
  {
    match codec.unmarshal(currentConfig)
    case Failure(e) => MergeResult("", ZeroConfig(), UnmarshalFailed(e))
    case Success(cfg) =>
      if !Assignable(cfg, req) then MergeResult("", ZeroConfig(), NilMapAssignment)
      else
        var merged := MergedConfig(cfg, req);
        match codec.marshal(merged)
        case Failure(e) => MergeResult("", ZeroConfig(), MarshalFailed(e))
        case Success(text) => MergeResult(text, merged, NoError)
  }

  /**
   * One `for key, data := range fragment { section[key] = data }` loop. The range
   * order is unspecified, so each step takes any key not yet visited. `ok` is false
   * when the loop panics on a nil section.
   */
  method AssignEntries<V>(section: GoMap<V>, fragment: map<string, V>) returns (r: GoMap<V>, ok: bool)
    ensures ok <==> CanOverlay(section, fragment)
    ensures ok ==> r == Overlay(section, fragment)
  {
    r := section;
    var pending := fragment.Keys;
    while pending != {}
      invariant pending <= fragment.Keys
      invariant r.Nil? <==> section.Nil?
      invariant section.Nil? ==> pending == fragment.Keys
      invariant r.Table? ==> r.entries == section.entries + Restrict(fragment, fragment.Keys - pending)
      decreases pending
    {
      var key :| key in pending;
      var written := Assign(r, key, fragment[key]);
      if written.None? {
        return r, false;
      }
      ghost var done := fragment.Keys - pending;
      r := written.value;
      pending := pending - {key};
      assert Restrict(fragment, fragment.Keys - pending) == Restrict(fragment, done)[key := fragment[key]];
    }
    assert Restrict(fragment, fragment.Keys) == fragment;
    return r, true;
  }

  /**
   * Decode the stored text, overlay the request's sources, transforms and sinks in
   * that order, encode the result; stop at the first failure.
   */
  method UpdateVectorConfigWithRequestedConfig<V>(codec: Codec<V>, currentConfig: string, req: UpdateVectorConfigRequest<V>)
    returns (vectorDataYaml: string, vectorConfig: VectorConfig<V>, status: MergeStatus)
    ensures MergeResult(vectorDataYaml, vectorConfig, status) == UpdateVectorConfig(codec, currentConfig, req)
  {
    var decoded := codec.unmarshal(currentConfig);
    if decoded.Failure? {
      return "", ZeroConfig(), UnmarshalFailed(decoded.error);
    }
    var cfg := decoded.value;
    var sources, sourcesOk := AssignEntries(cfg.sources, req.sources);
    if !sourcesOk {
      return "", ZeroConfig(), NilMapAssignment;
    }
    var transforms, transformsOk := AssignEntries(cfg.transforms, req.transforms);
    if !transformsOk {
      return "", ZeroConfig(), NilMapAssignment;
    }
    var sinks, sinksOk := AssignEntries(cfg.sinks, req.sinks);
    if !sinksOk {
      return "", ZeroConfig(), NilMapAssignment;
    }
    var merged := VectorConfig(cfg.dataDir, sinks, transforms, sources);
    var encoded := codec.marshal(merged);
    if encoded.Failure? {
      return "", ZeroConfig(), MarshalFailed(encoded.error);
    }
    return encoded.value, merged, NoError;
  }

  /**
   * The assignments of one range loop, in an explicit visiting order `keys`.
   * `AssignEntries` already covers every order by choosing keys arbitrarily; this
   * sequence form lets the lemmas below compare two given orders.
   */
  function AssignInOrder<V>(m: map<string, V>, keys: seq<string>, fragment: map<string, V>): map<string, V>
    requires forall i :: 0 <= i < |keys| ==> keys[i] in fragment
    decreases |keys|
  {
    if keys == [] then m else AssignInOrder(m[keys[0] := fragment[keys[0]]], keys[1..], fragment)
  }

  /** Assigning in any order overlays exactly the visited entries. */
  lemma {:induction false} AssignInOrderOverlays<V>(m: map<string, V>, keys: seq<string>, fragment: map<string, V>)
    requires forall i :: 0 <= i < |keys| ==> keys[i] in fragment
    ensures AssignInOrder(m, keys, fragment) == m + Restrict(fragment, set k | k in keys)
    decreases |keys|
  {
    if keys != [] {
      var k := keys[0];
      var rest := keys[1..];
      AssignInOrderOverlays(m[k := fragment[k]], rest, fragment);
      var tail := set x | x in rest;
      assert (set x | x in keys) == {k} + tail by {
        assert keys == [k] + rest;
      }
      AssignThenOverlay(m, k, fragment, tail);
    }
  }

  /** Assigning one fragment entry and then overlaying more of the fragment overlays both. */
  lemma AssignThenOverlay<V>(m: map<string, V>, k: string, fragment: map<string, V>, keys: set<string>)
    requires k in fragment
    ensures m[k := fragment[k]] + Restrict(fragment, keys) == m + Restrict(fragment, {k} + keys)
  {
    var lhs := m[k := fragment[k]] + Restrict(fragment, keys);
    var rhs := m + Restrict(fragment, {k} + keys);
    assert lhs.Keys == rhs.Keys;
    forall x | x in lhs ensures lhs[x] == rhs[x] {
      if x == k || x in keys * fragment.Keys {
        assert rhs[x] == fragment[x];
      }
    }
  }

  /**
   * Range order does not matter: any two visiting orders of the fragment's keys
   * give the same section, namely the overlay.
   */
  lemma AssignOrderIrrelevant<V>(m: map<string, V>, order1: seq<string>, order2: seq<string>, fragment: map<string, V>)
    requires (set k | k in order1) == fragment.Keys
    requires (set k | k in order2) == fragment.Keys
    ensures forall i :: 0 <= i < |order1| ==> order1[i] in fragment
    ensures forall i :: 0 <= i < |order2| ==> order2[i] in fragment
    ensures AssignInOrder(m, order1, fragment) == AssignInOrder(m, order2, fragment) == m + fragment
  {
    forall i | 0 <= i < |order1| ensures order1[i] in fragment {
      assert order1[i] in (set k | k in order1);
    }
    forall i | 0 <= i < |order2| ensures order2[i] in fragment {
      assert order2[i] in (set k | k in order2);
    }
    AssignInOrderOverlays(m, order1, fragment);
    AssignInOrderOverlays(m, order2, fragment);
    assert Restrict(fragment, fragment.Keys) == fragment;
  }

  /** The result section of one kind depends only on the fragment of that kind. */
  lemma SectionsIndependent<V>(cfg: VectorConfig<V>, req1: UpdateVectorConfigRequest<V>, req2: UpdateVectorConfigRequest<V>)
    requires Assignable(cfg, req1) && Assignable(cfg, req2)
    ensures req1.sources == req2.sources ==> MergedConfig(cfg, req1).sources == MergedConfig(cfg, req2).sources
    ensures req1.transforms == req2.transforms ==> MergedConfig(cfg, req1).transforms == MergedConfig(cfg, req2).transforms
    ensures req1.sinks == req2.sinks ==> MergedConfig(cfg, req1).sinks == MergedConfig(cfg, req2).sinks
  {
  }

  /** Overlaying the same request twice changes nothing more. */
  lemma MergeIdempotent<V>(cfg: VectorConfig<V>, req: UpdateVectorConfigRequest<V>)
    requires Assignable(cfg, req)
    ensures Assignable(MergedConfig(cfg, req), req)
    ensures MergedConfig(MergedConfig(cfg, req), req) == MergedConfig(cfg, req)
  {
  }

  /** A section as it reads back once encoded: a nil map is written as `{}` and decodes as an empty table. */
  function NormalizedSection<V>(section: GoMap<V>): (r: GoMap<V>)
    ensures r.Table?
    ensures section.Table? ==> r == section
    ensures section.Nil? ==> r.entries == map[]
  {
    match section
    case Nil => Table(map[])
    case Table(_) => section
  }

  /** A section is nil. */
  predicate HasNilSection<V>(cfg: VectorConfig<V>)
  {
    cfg.sinks.Nil? || cfg.transforms.Nil? || cfg.sources.Nil?
  }

  /** A document as it reads back once encoded: every nil section becomes an empty one. */
  function Normalized<V>(cfg: VectorConfig<V>): (r: VectorConfig<V>)
    ensures !HasNilSection(r)
    ensures r.dataDir == cfg.dataDir
    ensures r == cfg <==> !HasNilSection(cfg)
    ensures cfg.sinks.Table? ==> r.sinks == cfg.sinks
    ensures cfg.transforms.Table? ==> r.transforms == cfg.transforms
    ensures cfg.sources.Table? ==> r.sources == cfg.sources
  {
    VectorConfig(cfg.dataDir, NormalizedSection(cfg.sinks), NormalizedSection(cfg.transforms), NormalizedSection(cfg.sources))
  }

  /**
   * Merging a request into the read-back form of a document that already has that
   * request merged changes nothing: a section left nil by the first merge received
   * no entries, so its empty read-back form receives none either.
   */
  lemma {:induction false} MergeOfNormalizedIsStable<V>(cfg: VectorConfig<V>, req: UpdateVectorConfigRequest<V>)
    requires Assignable(cfg, req)
    ensures Assignable(Normalized(MergedConfig(cfg, req)), req)
    ensures MergedConfig(Normalized(MergedConfig(cfg, req)), req) == Normalized(MergedConfig(cfg, req))
  {
    var n := Normalized(MergedConfig(cfg, req));
    assert n.sinks.entries + req.sinks == n.sinks.entries;
    assert n.transforms.entries + req.transforms == n.transforms.entries;
    assert n.sources.entries + req.sources == n.sources.entries;
  }

  /**
   * The document of the handler test: two sinks, one transform, two sources; a
   * request adding two transforms keeps every existing entry and adds both.
   */
  lemma AddTransformsScenario<V>(fileSink: V, agentSink: V, filter: V, internalSource: V, k8sSource: V, test1: V, test2: V)
    ensures
      var cfg := VectorConfig("/vector-data-dir",
        Table(map["k8s_logs_sink" := fileSink, "vector_agent_sink" := agentSink]),
        Table(map["filter_k8s_logs" := filter]),
        Table(map["internal_log_source" := internalSource, "k8s_logs_source" := k8sSource]));
      var req := UpdateVectorConfigRequest("name", "ns", map["filter_test" := test1, "filter_test_2" := test2], map[], map[]);
      && Assignable(cfg, req)
      && var r := MergedConfig(cfg, req);
      && r.transforms == Table(map["filter_k8s_logs" := filter, "filter_test" := test1, "filter_test_2" := test2])
      && r.sinks == cfg.sinks && r.sources == cfg.sources && r.dataDir == "/vector-data-dir"
  {
  }
}
