/** `extract_graph_components` end to end: from the raw input and the LLM's
    answers to the returned `(nodes, relationships, chunk_node_mapping)`. */
module ExtractionTheorems {
  import opened Wrappers
  import opened Seqs
  import opened OrderedDict
  import opened Extraction
  import opened ExtractionFacts

  /** At most one relationship per triple, over any run of chunks. */
  lemma {:induction false} AllEdgesLength(n: Dict<string, Id>, cs: seq<Chunk>, idx: nat, answer: Answer)
    requires ChunksGrounded(n, idx, |cs|, answer)
    ensures |AllEdges(n, cs, idx, answer)| <= TripleCount(answer, idx, |cs|)
    decreases |cs|
  {
    if cs != [] {
      EdgesOfLength(n, answer(idx), cs[0].source);
      AllEdgesLength(n, cs[1..], idx + 1, answer);
    }
  }

  /** The chunk loop of a run that got past normalisation. */
  lemma ExtractionRun(raw: RawText, uuid: IdSource, answer: Answer, cs: seq<Chunk>)
    requires Normalise(raw) == Success(cs)
    ensures RunChunks(InitialState(), cs, 0, uuid, answer).Failure? ==>
      ExtractGraphComponents(raw, uuid, answer) == Failure(RunChunks(InitialState(), cs, 0, uuid, answer).error)
    ensures RunChunks(InitialState(), cs, 0, uuid, answer).Success? ==>
      var st := RunChunks(InitialState(), cs, 0, uuid, answer).value;
      ExtractGraphComponents(raw, uuid, answer) == Success(Graph(st.names.nodes, st.relationships, st.mapping))
  {
  }

  /** A value that is neither a string nor a list raises `ValueError`;
      otherwise the run fails, with a `KeyError` on the empty name, exactly
      when some triple has an empty `node` but a target and a relationship. */
  lemma ExtractionFails(raw: RawText, uuid: IdSource, answer: Answer)
    ensures raw.Unsupported? ==> ExtractGraphComponents(raw, uuid, answer) == Failure(NotStringOrList)
    ensures !raw.Unsupported? ==>
      (ExtractGraphComponents(raw, uuid, answer).Failure? <==> HasBad(answer, 0, |Normalise(raw).value|))
    ensures !raw.Unsupported? && ExtractGraphComponents(raw, uuid, answer).Failure? ==>
      ExtractGraphComponents(raw, uuid, answer).error == UnknownNode("")
  {
    if !raw.Unsupported? {
      var cs := Normalise(raw).value;
      ExtractionRun(raw, uuid, answer, cs);
      RunChunksFails(InitialState(), cs, 0, uuid, answer);
    }
  }

  /** The names table binds exactly the non-empty names the triples of the
      chunks mention, and never the empty name. */
  lemma ExtractionNodes(raw: RawText, uuid: IdSource, answer: Answer, cs: seq<Chunk>, g: Graph, x: string)
    requires Normalise(raw) == Success(cs)
    requires ExtractGraphComponents(raw, uuid, answer) == Success(g)
    ensures Valid(g.nodes) && "" !in g.nodes.m
    ensures x in g.nodes.m <==> MentionedBy(answer, 0, |cs|, x)
  {
    ExtractionRun(raw, uuid, answer, cs);
    var st0 := InitialState();
    var r := RunChunks(st0, cs, 0, uuid, answer).value;
    assert g.nodes == r.names.nodes;
    RunChunksKeys(st0, cs, 0, uuid, answer);
    RunChunksGrows(st0, cs, 0, uuid, answer);
    if MentionedBy(answer, 0, |cs|, x) {
      var k :| 0 <= k < |cs| && x in Mentioned(answer(k));
      MentionedBound(g.nodes, answer(k));
    }
  }

  /** The relationships are the edges of the triples, chunk by chunk and
      triple by triple, looked up in the returned table, so there are at
      most as many as there are triples. */
  lemma ExtractionRelationships(raw: RawText, uuid: IdSource, answer: Answer, cs: seq<Chunk>, g: Graph)
    requires Normalise(raw) == Success(cs)
    requires ExtractGraphComponents(raw, uuid, answer) == Success(g)
    ensures ChunksGrounded(g.nodes, 0, |cs|, answer)
    ensures g.relationships == AllEdges(g.nodes, cs, 0, answer)
    ensures |g.relationships| <= TripleCount(answer, 0, |cs|)
  {
    ExtractionRun(raw, uuid, answer, cs);
    var st0 := InitialState();
    RunChunksEdges(st0, cs, 0, uuid, answer);
    assert [] + AllEdges(g.nodes, cs, 0, answer) == AllEdges(g.nodes, cs, 0, answer);
    AllEdgesLength(g.nodes, cs, 0, answer);
  }

  /** With distinct uuids the chunk mapping has exactly one key per chunk. */
  lemma ExtractionMappingSize(raw: RawText, uuid: IdSource, answer: Answer, cs: seq<Chunk>, g: Graph)
    requires Normalise(raw) == Success(cs)
    requires ExtractGraphComponents(raw, uuid, answer) == Success(g)
    requires Injective(uuid)
    ensures Valid(g.chunkMapping) && |g.chunkMapping.keys| == |cs|
  {
    ExtractionRun(raw, uuid, answer, cs);
    var st0 := InitialState();
    var r := RunChunks(st0, cs, 0, uuid, answer).value;
    assert g.chunkMapping == r.mapping;
    RunChunksMappingKeys(st0, cs, 0, uuid, answer);
  }

  /** With distinct uuids the chunk mapping has one key per chunk, in chunk
      order: the k-th key records the k-th chunk's text and source, the
      index k, and the ids of the names its triples mention. */
  lemma ExtractionChunkMapping(raw: RawText, uuid: IdSource, answer: Answer, cs: seq<Chunk>, g: Graph, k: nat)
    requires Normalise(raw) == Success(cs)
    requires ExtractGraphComponents(raw, uuid, answer) == Success(g)
    requires Injective(uuid)
    requires k < |cs|
    ensures Valid(g.chunkMapping) && |g.chunkMapping.keys| == |cs|
    ensures Grounded(g.nodes, answer(k))
    ensures g.chunkMapping.keys[k] in g.chunkMapping.m
    ensures g.chunkMapping.m[g.chunkMapping.keys[k]] == ChunkRecord(cs[k].text, cs[k].source, k, IdsOf(g.nodes, answer(k)))
  {
    ExtractionRun(raw, uuid, answer, cs);
    var st0 := InitialState();
    var r := RunChunks(st0, cs, 0, uuid, answer).value;
    assert g == Graph(r.names.nodes, r.relationships, r.mapping);
    ExtractionMappingSize(raw, uuid, answer, cs, g);
    assert cs[0..] == cs;
    RunChunksRecord(st0, cs, 0, uuid, answer, r, k, k);
    RecordAtMeans(r.mapping, k, cs[k], k, r.names.nodes, answer);
  }

  /** Every id recorded for a chunk is the id of some entity in the table. */
  lemma ExtractionEntityIds(raw: RawText, uuid: IdSource, answer: Answer, cs: seq<Chunk>, g: Graph, k: nat, i: nat)
    requires Normalise(raw) == Success(cs)
    requires ExtractGraphComponents(raw, uuid, answer) == Success(g)
    requires Injective(uuid)
    requires k < |cs|
    ensures k < |g.chunkMapping.keys| && g.chunkMapping.keys[k] in g.chunkMapping.m
    ensures i < |g.chunkMapping.m[g.chunkMapping.keys[k]].entityIds| ==>
      g.chunkMapping.m[g.chunkMapping.keys[k]].entityIds[i] in g.nodes.m.Values
  {
    ExtractionChunkMapping(raw, uuid, answer, cs, g, k);
    IdsOfValues(g.nodes, answer(k));
  }
}
