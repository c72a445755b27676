/** The two Neo4j ingesters as the sequence of write commands they run in
    one session. The newer one (`services/rag_api`) writes Entity nodes,
    then Chunk nodes each followed by its MENTIONS edges, then the entity
    relationships; the older one (`rag_handler`) writes only the entities
    and the relationships. Cypher execution is not modelled: a command
    stands for the `session.run` call with its parameters. */
module GraphWrites {
  import opened Wrappers
  import opened Seqs
  import opened OrderedDict
  import opened Extraction
  import opened RelType

  datatype Command =
    | CreateEntity(id: Id, name: string)
    | CreateChunk(chunkId: Id, text: string, sourceFile: Option<string>, chunkIndex: nat)
    | Mentions(fromChunk: Id, entity: Id)
    | CreateEdge(relLabel: string, source: Id, target: Id, originalType: string, edgeSource: Option<string>)

  /** Position of a command's kind in the write order. */
  function Phase(c: Command): nat {
    match c
    case CreateEntity(_, _) => 0
    case CreateChunk(_, _, _, _) => 1
    case Mentions(_, _) => 1
    case CreateEdge(_, _, _, _, _) => 2
  }

  // ------------------------------------------------------------------ the three phases

  /** `for name, node_id in nodes.items(): CREATE (n:Entity ...)` over the
      keys `keys` of `nodes`. */
  function EntityCommands(nodes: Dict<string, Id>, keys: seq<string>): seq<Command>
    requires forall i | 0 <= i < |keys| :: keys[i] in nodes.m
  {
    if keys == [] then [] else [CreateEntity(nodes.m[keys[0]], keys[0])] + EntityCommands(nodes, keys[1..])
  }

  /** The MENTIONS edges of one chunk: one per element of
      `set(chunk_data["entity_ids"])`. */
  function MentionCommands(chunkId: Id, entityIds: seq<Id>): seq<Command> {
    var ids := Dedup(entityIds);
    seq(|ids|, i requires 0 <= i < |ids| => Mentions(chunkId, ids[i]))
  }

  /** The Chunk node of one mapping entry followed by its MENTIONS edges. */
  function ChunkEntryCommands(chunkId: Id, rec: ChunkRecord): seq<Command> {
    [CreateChunk(chunkId, rec.text, rec.sourceFile, rec.chunkIndex)] + MentionCommands(chunkId, rec.entityIds)
  }

  /** `for chunk_id, chunk_data in chunk_node_mapping.items(): ...` over the
      keys `keys` of `mapping`. */
  function ChunkCommands(mapping: Dict<Id, ChunkRecord>, keys: seq<Id>): seq<Command>
    requires forall i | 0 <= i < |keys| :: keys[i] in mapping.m
  {
    if keys == [] then [] else ChunkEntryCommands(keys[0], mapping.m[keys[0]]) + ChunkCommands(mapping, keys[1..])
  }

  /** The relationship command: the sanitised type as label, the raw type
      kept as `original_type`. */
  function EdgeCommand(r: Relationship): Command {
    CreateEdge(Sanitize(r.relType), r.source, r.target, r.relType, r.sourceFile)
  }

  function EdgeCommands(rels: seq<Relationship>): seq<Command> {
    if rels == [] then [] else [EdgeCommand(rels[0])] + EdgeCommands(rels[1..])
  }

  /** `if chunk_node_mapping:` is false for `None` and for an empty dict. */
  predicate HasChunks(mapping: Option<Dict<Id, ChunkRecord>>) {
    mapping.Some? && mapping.value.keys != []
  }

  /** `ingest_to_neo4j(nodes, relationships, chunk_node_mapping=None)` of
      the rag_api storage client: the commands run, and the return value. */
  function IngestToNeo4j(nodes: Dict<string, Id>, rels: seq<Relationship>, mapping: Option<Dict<Id, ChunkRecord>>): (seq<Command>, Dict<string, Id>)
    requires Valid(nodes)
    requires mapping.Some? ==> Valid(mapping.value)
  {
    var chunks := if HasChunks(mapping) then ChunkCommands(mapping.value, mapping.value.keys) else [];
    (EntityCommands(nodes, nodes.keys) + chunks + EdgeCommands(rels), nodes)
  }

  /** `ingest_to_neo4j(nodes, relationships)` of the older rag_handler
      orchestrator. */
  function LegacyIngestToNeo4j(nodes: Dict<string, Id>, rels: seq<Relationship>): (seq<Command>, Dict<string, Id>)
    requires Valid(nodes)
  {
    (EntityCommands(nodes, nodes.keys) + EdgeCommands(rels), nodes)
  }

  // ------------------------------------------------------------------ projections

  function AsEntity(c: Command): Option<(string, Id)> {
    if c.CreateEntity? then Some((c.name, c.id)) else None
  }

  function AsChunk(c: Command): Option<Id> {
    if c.CreateChunk? then Some(c.chunkId) else None
  }

  function AsChunkNode(c: Command): Option<Command> {
    if c.CreateChunk? then Some(c) else None
  }

  function AsEdge(c: Command): Option<Command> {
    if c.CreateEdge? then Some(c) else None
  }

  /** The entities MENTIONed by chunk `chunkId`. */
  function MentionOf(chunkId: Id): Command -> Option<Id> {
    (c: Command) => if c.Mentions? && c.fromChunk == chunkId then Some(c.entity) else None
  }

  // ------------------------------------------------------------------ per-phase facts

  /** One Entity create per key, in key order, with that key's id. */
  lemma {:induction false} EntityCommandsSpec(nodes: Dict<string, Id>, keys: seq<string>)
    requires forall i | 0 <= i < |keys| :: keys[i] in nodes.m
    ensures |EntityCommands(nodes, keys)| == |keys|
    ensures forall i | 0 <= i < |keys| :: EntityCommands(nodes, keys)[i] == CreateEntity(nodes.m[keys[i]], keys[i])
    decreases |keys|
  {
    if keys != [] {
      EntityCommandsSpec(nodes, keys[1..]);
    }
  }

  /** Exactly one MENTIONS per distinct entity id of the chunk. */
  lemma MentionCommandsSpec(chunkId: Id, entityIds: seq<Id>)
    ensures forall i | 0 <= i < |MentionCommands(chunkId, entityIds)| ::
      MentionCommands(chunkId, entityIds)[i].Mentions? && MentionCommands(chunkId, entityIds)[i].fromChunk == chunkId
    ensures NoDup(MentionCommands(chunkId, entityIds))
    ensures forall e :: Mentions(chunkId, e) in MentionCommands(chunkId, entityIds) <==> e in entityIds
  {
    var ids := Dedup(entityIds);
    var ms := MentionCommands(chunkId, entityIds);
    forall e
      ensures Mentions(chunkId, e) in ms <==> e in entityIds
    {
      if e in entityIds {
        var i :| 0 <= i < |entityIds| && entityIds[i] == e;
        var j :| 0 <= j < |ids| && ids[j] == e;
        assert ms[j] == Mentions(chunkId, e);
      }
      if Mentions(chunkId, e) in ms {
        var j :| 0 <= j < |ms| && ms[j] == Mentions(chunkId, e);
        assert ids[j] == e;
      }
    }
  }

  /** The chunk phase holds only chunk and MENTIONS commands. */
  lemma {:induction false} ChunkCommandsPhase(mapping: Dict<Id, ChunkRecord>, keys: seq<Id>)
    requires forall i | 0 <= i < |keys| :: keys[i] in mapping.m
    ensures forall i | 0 <= i < |ChunkCommands(mapping, keys)| :: Phase(ChunkCommands(mapping, keys)[i]) == 1
    decreases |keys|
  {
    if keys != [] {
      ChunkCommandsPhase(mapping, keys[1..]);
    }
  }

  /** One entry contributes its own Chunk create and no other. */
  lemma ChunkEntryChunk(k: Id, rec: ChunkRecord)
    ensures FilterMap(AsChunk, ChunkEntryCommands(k, rec)) == [k]
  {
    var c := CreateChunk(k, rec.text, rec.sourceFile, rec.chunkIndex);
    var ms := MentionCommands(k, rec.entityIds);
    FilterMapAppend(AsChunk, [c], ms);
    FilterMapNone(AsChunk, ms);
    assert FilterMap(AsChunk, [c]) == [k] + FilterMap(AsChunk, []);
  }

  /** One Chunk create per key, in key order. */
  lemma {:induction false} ChunkCommandsChunks(mapping: Dict<Id, ChunkRecord>, keys: seq<Id>)
    requires forall i | 0 <= i < |keys| :: keys[i] in mapping.m
    ensures FilterMap(AsChunk, ChunkCommands(mapping, keys)) == keys
    decreases |keys|
  {
    if keys != [] {
      var k := keys[0];
      var rest := keys[1..];
      ChunkCommandsChunks(mapping, rest);
      assert FilterMap(AsChunk, ChunkCommands(mapping, keys)) == [k] + rest by {
        ChunkCommandsSplit(AsChunk, mapping, keys);
        ChunkEntryChunk(k, mapping.m[k]);
      }
      assert keys == [k] + rest;
    }
  }

  /** One entry's Chunk create carries the record's text, source file and
      chunk index. */
  lemma ChunkEntryNode(k: Id, rec: ChunkRecord)
    ensures FilterMap(AsChunkNode, ChunkEntryCommands(k, rec)) == [CreateChunk(k, rec.text, rec.sourceFile, rec.chunkIndex)]
  {
    var c := CreateChunk(k, rec.text, rec.sourceFile, rec.chunkIndex);
    var ms := MentionCommands(k, rec.entityIds);
    FilterMapAppend(AsChunkNode, [c], ms);
    FilterMapNone(AsChunkNode, ms);
    assert FilterMap(AsChunkNode, [c]) == [c] + FilterMap(AsChunkNode, []);
  }

  /** The i-th Chunk create is that of the i-th key, with its record's
      text, source file and chunk index. */
  lemma {:induction false} ChunkCommandsNodes(mapping: Dict<Id, ChunkRecord>, keys: seq<Id>)
    requires forall i | 0 <= i < |keys| :: keys[i] in mapping.m
    ensures var ns := FilterMap(AsChunkNode, ChunkCommands(mapping, keys));
      && |ns| == |keys|
      && forall i | 0 <= i < |keys| ::
           ns[i] == CreateChunk(keys[i], mapping.m[keys[i]].text, mapping.m[keys[i]].sourceFile, mapping.m[keys[i]].chunkIndex)
    decreases |keys|
  {
    if keys != [] {
      var k := keys[0];
      var rest := keys[1..];
      var rec := mapping.m[k];
      var tailNodes := FilterMap(AsChunkNode, ChunkCommands(mapping, rest));
      var ns := FilterMap(AsChunkNode, ChunkCommands(mapping, keys));
      ChunkCommandsNodes(mapping, rest);
      assert ns == [CreateChunk(k, rec.text, rec.sourceFile, rec.chunkIndex)] + tailNodes by {
        ChunkCommandsSplit(AsChunkNode, mapping, keys);
        ChunkEntryNode(k, rec);
      }
      forall i | 1 <= i < |keys|
        ensures ns[i] == CreateChunk(keys[i], mapping.m[keys[i]].text, mapping.m[keys[i]].sourceFile, mapping.m[keys[i]].chunkIndex)
      {
        assert ns[i] == tailNodes[i - 1] && rest[i - 1] == keys[i];
      }
    }
  }

  /** A sequence without repeats keeps none after dropping its head, and
      its head does not come back. */
  lemma NoDupTail<T>(s: seq<T>)
    requires s != [] && NoDup(s)
    ensures NoDup(s[1..]) && s[0] !in s[1..]
  {
    forall j | 0 <= j < |s[1..]|
      ensures s[1..][j] != s[0]
    {
      assert s[1..][j] == s[j + 1];
    }
  }

  /** The chunk phase projected through `f` is the first entry's part
      followed by the rest's. */
  lemma ChunkCommandsSplit<U>(f: Command -> Option<U>, mapping: Dict<Id, ChunkRecord>, keys: seq<Id>)
    requires forall i | 0 <= i < |keys| :: keys[i] in mapping.m
    requires keys != []
    ensures FilterMap(f, ChunkCommands(mapping, keys)) ==
      FilterMap(f, ChunkEntryCommands(keys[0], mapping.m[keys[0]])) + FilterMap(f, ChunkCommands(mapping, keys[1..]))
  {
    FilterMapAppend(f, ChunkEntryCommands(keys[0], mapping.m[keys[0]]), ChunkCommands(mapping, keys[1..]));
  }

  /** One entry's MENTIONS projected onto a chunk id: its distinct entity
      ids for its own key, nothing for another. */
  lemma ChunkEntryMentions(chunkId: Id, k: Id, rec: ChunkRecord)
    ensures FilterMap(MentionOf(chunkId), ChunkEntryCommands(k, rec)) ==
      if chunkId == k then Dedup(rec.entityIds) else []
  {
    var f := MentionOf(chunkId);
    var c := CreateChunk(k, rec.text, rec.sourceFile, rec.chunkIndex);
    var ms := MentionCommands(k, rec.entityIds);
    FilterMapAppend(f, [c], ms);
    assert FilterMap(f, [c]) == [] by {
      FilterMapNone(f, [c]);
    }
    MentionsProject(chunkId, k, rec.entityIds);
  }

  /** The MENTIONS commands from chunk `chunkId` are those of its own entry
      when the keys are distinct: one per distinct id of its `entity_ids`. */
  lemma {:induction false} ChunkCommandsMentions(mapping: Dict<Id, ChunkRecord>, keys: seq<Id>, chunkId: Id)
    requires forall i | 0 <= i < |keys| :: keys[i] in mapping.m
    requires NoDup(keys)
    ensures chunkId in keys ==>
      FilterMap(MentionOf(chunkId), ChunkCommands(mapping, keys)) == Dedup(mapping.m[chunkId].entityIds)
    ensures chunkId !in keys ==> FilterMap(MentionOf(chunkId), ChunkCommands(mapping, keys)) == []
    decreases |keys|
  {
    if keys != [] {
      NoDupTail(keys);
      ChunkCommandsMentions(mapping, keys[1..], chunkId);
      ChunkCommandsSplit(MentionOf(chunkId), mapping, keys);
      ChunkEntryMentions(chunkId, keys[0], mapping.m[keys[0]]);
    }
  }

  /** Projecting one chunk's MENTIONS onto a chunk id gives its distinct
      entity ids, or nothing for another chunk. */
  lemma {:induction false} MentionsProject(chunkId: Id, k: Id, entityIds: seq<Id>)
    ensures FilterMap(MentionOf(chunkId), MentionCommands(k, entityIds)) ==
      if chunkId == k then Dedup(entityIds) else []
  {
    var ids := Dedup(entityIds);
    MentionsProjectFrom(chunkId, k, ids, 0);
    assert ids[0..] == ids;
  }

  lemma {:induction false} MentionsProjectFrom(chunkId: Id, k: Id, ids: seq<Id>, from: nat)
    requires from <= |ids|
    ensures FilterMap(MentionOf(chunkId), seq(|ids|, i requires 0 <= i < |ids| => Mentions(k, ids[i]))[from..]) ==
      if chunkId == k then ids[from..] else []
    decreases |ids| - from
  {
    var ms := seq(|ids|, i requires 0 <= i < |ids| => Mentions(k, ids[i]));
    if from < |ids| {
      MentionsProjectFrom(chunkId, k, ids, from + 1);
      assert ms[from..][1..] == ms[from + 1..];
      assert ids[from..] == [ids[from]] + ids[from + 1..];
    } else {
      assert ms[from..] == [];
    }
  }

  /** One relationship command per relationship, in order, labelled with
      the sanitised type and carrying the original type. */
  lemma {:induction false} EdgeCommandsSpec(rels: seq<Relationship>)
    ensures |EdgeCommands(rels)| == |rels|
    ensures forall i | 0 <= i < |rels| ::
      && EdgeCommands(rels)[i] == CreateEdge(Sanitize(rels[i].relType), rels[i].source, rels[i].target, rels[i].relType, rels[i].sourceFile)
      && IsLabel(EdgeCommands(rels)[i].relLabel)
    decreases |rels|
  {
    if rels != [] {
      EdgeCommandsSpec(rels[1..]);
      SanitizeIsLabel(rels[0].relType);
    }
  }

  lemma {:induction false} EntityCommandsPhase(nodes: Dict<string, Id>, keys: seq<string>)
    requires forall i | 0 <= i < |keys| :: keys[i] in nodes.m
    ensures forall i | 0 <= i < |EntityCommands(nodes, keys)| :: Phase(EntityCommands(nodes, keys)[i]) == 0
  {
    EntityCommandsSpec(nodes, keys);
  }

  lemma EdgeCommandsPhase(rels: seq<Relationship>)
    ensures forall i | 0 <= i < |EdgeCommands(rels)| :: Phase(EdgeCommands(rels)[i]) == 2
  {
    EdgeCommandsSpec(rels);
  }

  /** Projecting the entity phase onto Entity creates gives the table's
      entries in key order. */
  lemma {:induction false} EntityCommandsProject(nodes: Dict<string, Id>, keys: seq<string>)
    requires forall i | 0 <= i < |keys| :: keys[i] in nodes.m
    ensures FilterMap(AsEntity, EntityCommands(nodes, keys)) ==
      seq(|keys|, i requires 0 <= i < |keys| => (keys[i], nodes.m[keys[i]]))
    decreases |keys|
  {
    if keys != [] {
      EntityCommandsProject(nodes, keys[1..]);
      assert EntityCommands(nodes, keys) == [CreateEntity(nodes.m[keys[0]], keys[0])] + EntityCommands(nodes, keys[1..]);
      FilterMapAppend(AsEntity, [CreateEntity(nodes.m[keys[0]], keys[0])], EntityCommands(nodes, keys[1..]));
    }
  }

  // ------------------------------------------------------------------ the whole session

  /** The commands of the newer ingester, with the chunk phase named. */
  function ChunkPhase(mapping: Option<Dict<Id, ChunkRecord>>): seq<Command>
    requires mapping.Some? ==> Valid(mapping.value)
  {
    if HasChunks(mapping) then ChunkCommands(mapping.value, mapping.value.keys) else []
  }

  lemma ChunkPhaseKinds(mapping: Option<Dict<Id, ChunkRecord>>)
    requires mapping.Some? ==> Valid(mapping.value)
    ensures forall i | 0 <= i < |ChunkPhase(mapping)| :: Phase(ChunkPhase(mapping)[i]) == 1
  {
    if HasChunks(mapping) {
      ChunkCommandsPhase(mapping.value, mapping.value.keys);
    }
  }

  /** The session is the entity phase, then the chunk phase, then the edge
      phase. */
  lemma SessionCommands(nodes: Dict<string, Id>, rels: seq<Relationship>, mapping: Option<Dict<Id, ChunkRecord>>)
    requires Valid(nodes)
    requires mapping.Some? ==> Valid(mapping.value)
    ensures IngestToNeo4j(nodes, rels, mapping).0 ==
      EntityCommands(nodes, nodes.keys) + (ChunkPhase(mapping) + EdgeCommands(rels))
  {
    var a := EntityCommands(nodes, nodes.keys);
    var b := ChunkPhase(mapping);
    var c := EdgeCommands(rels);
    assert IngestToNeo4j(nodes, rels, mapping).0 == a + b + c;
    AppendAssoc(a, b, c);
  }

  /** Three runs of phases 0, 1 and 2, concatenated, are in phase order. */
  lemma PhasesOrdered(a: seq<Command>, b: seq<Command>, c: seq<Command>)
    requires forall i | 0 <= i < |a| :: Phase(a[i]) == 0
    requires forall i | 0 <= i < |b| :: Phase(b[i]) == 1
    requires forall i | 0 <= i < |c| :: Phase(c[i]) == 2
    ensures forall i, j | 0 <= i <= j < |a + (b + c)| :: Phase((a + (b + c))[i]) <= Phase((a + (b + c))[j])
  {
    var cmds := a + (b + c);
    forall i | 0 <= i < |cmds|
      ensures Phase(cmds[i]) == if i < |a| then 0 else if i < |a| + |b| then 1 else 2
    {
      if i < |a| {
        assert cmds[i] == a[i];
      } else if i < |a| + |b| {
        assert cmds[i] == b[i - |a|];
      } else {
        assert cmds[i] == c[i - |a| - |b|];
      }
    }
  }

  /** A projection of the session is the projections of its three phases,
      concatenated. */
  lemma SessionProject<U>(f: Command -> Option<U>, nodes: Dict<string, Id>, rels: seq<Relationship>, mapping: Option<Dict<Id, ChunkRecord>>)
    requires Valid(nodes)
    requires mapping.Some? ==> Valid(mapping.value)
    ensures FilterMap(f, IngestToNeo4j(nodes, rels, mapping).0) ==
      FilterMap(f, EntityCommands(nodes, nodes.keys)) + (FilterMap(f, ChunkPhase(mapping)) + FilterMap(f, EdgeCommands(rels)))
  {
    SessionCommands(nodes, rels, mapping);
    FilterMapAppend(f, EntityCommands(nodes, nodes.keys), ChunkPhase(mapping) + EdgeCommands(rels));
    FilterMapAppend(f, ChunkPhase(mapping), EdgeCommands(rels));
  }

  /** A projection that ignores Entity creates drops the entity phase. */
  lemma EntityPhaseDropped<U>(f: Command -> Option<U>, nodes: Dict<string, Id>)
    requires Valid(nodes)
    requires forall c: Command :: Phase(c) == 0 ==> f(c).None?
    ensures FilterMap(f, EntityCommands(nodes, nodes.keys)) == []
  {
    EntityCommandsPhase(nodes, nodes.keys);
    FilterMapNone(f, EntityCommands(nodes, nodes.keys));
  }

  /** A projection that ignores Chunk and MENTIONS commands drops the chunk
      phase. */
  lemma ChunkPhaseDropped<U>(f: Command -> Option<U>, mapping: Option<Dict<Id, ChunkRecord>>)
    requires mapping.Some? ==> Valid(mapping.value)
    requires forall c: Command :: Phase(c) == 1 ==> f(c).None?
    ensures FilterMap(f, ChunkPhase(mapping)) == []
  {
    ChunkPhaseKinds(mapping);
    FilterMapNone(f, ChunkPhase(mapping));
  }

  /** A projection that ignores relationship commands drops the edge phase. */
  lemma EdgePhaseDropped<U>(f: Command -> Option<U>, rels: seq<Relationship>)
    requires forall c: Command :: Phase(c) == 2 ==> f(c).None?
    ensures FilterMap(f, EdgeCommands(rels)) == []
  {
    EdgeCommandsPhase(rels);
    FilterMapNone(f, EdgeCommands(rels));
  }

  /** The writes come in three phases: every Entity create precedes every
      Chunk or MENTIONS command, which precede every relationship; the
      table is returned as it was given. */
  lemma IngestPhases(nodes: Dict<string, Id>, rels: seq<Relationship>, mapping: Option<Dict<Id, ChunkRecord>>)
    requires Valid(nodes)
    requires mapping.Some? ==> Valid(mapping.value)
    ensures IngestToNeo4j(nodes, rels, mapping).1 == nodes
    ensures var cmds := IngestToNeo4j(nodes, rels, mapping).0;
      forall i, j | 0 <= i <= j < |cmds| :: Phase(cmds[i]) <= Phase(cmds[j])
  {
    SessionCommands(nodes, rels, mapping);
    EntityCommandsPhase(nodes, nodes.keys);
    ChunkPhaseKinds(mapping);
    EdgeCommandsPhase(rels);
    PhasesOrdered(EntityCommands(nodes, nodes.keys), ChunkPhase(mapping), EdgeCommands(rels));
  }

  /** One Entity create per table entry, in the table's order, with its
      name and id. */
  lemma IngestEntities(nodes: Dict<string, Id>, rels: seq<Relationship>, mapping: Option<Dict<Id, ChunkRecord>>)
    requires Valid(nodes)
    requires mapping.Some? ==> Valid(mapping.value)
    ensures FilterMap(AsEntity, IngestToNeo4j(nodes, rels, mapping).0) ==
      seq(|nodes.keys|, i requires 0 <= i < |nodes.keys| => (nodes.keys[i], nodes.m[nodes.keys[i]]))
  {
    var a := FilterMap(AsEntity, EntityCommands(nodes, nodes.keys));
    assert FilterMap(AsEntity, IngestToNeo4j(nodes, rels, mapping).0) == a by {
      SessionProject(AsEntity, nodes, rels, mapping);
      ChunkPhaseDropped(AsEntity, mapping);
      EdgePhaseDropped(AsEntity, rels);
      assert a + ([] + []) == a;
    }
    EntityCommandsProject(nodes, nodes.keys);
  }

  /** Chunk nodes are created, one per mapping key in key order, only when
      the mapping is given and non-empty. */
  lemma IngestChunks(nodes: Dict<string, Id>, rels: seq<Relationship>, mapping: Option<Dict<Id, ChunkRecord>>)
    requires Valid(nodes)
    requires mapping.Some? ==> Valid(mapping.value)
    ensures FilterMap(AsChunk, IngestToNeo4j(nodes, rels, mapping).0) ==
      if HasChunks(mapping) then mapping.value.keys else []
  {
    var b := FilterMap(AsChunk, ChunkPhase(mapping));
    assert FilterMap(AsChunk, IngestToNeo4j(nodes, rels, mapping).0) == b by {
      SessionProject(AsChunk, nodes, rels, mapping);
      EntityPhaseDropped(AsChunk, nodes);
      EdgePhaseDropped(AsChunk, rels);
      assert [] + (b + []) == b;
    }
    if HasChunks(mapping) {
      ChunkCommandsChunks(mapping.value, mapping.value.keys);
    }
  }

  /** With a non-empty mapping, the i-th Chunk create of the session is
      that of the i-th key with its record's text, source file and chunk
      index; without one there is none. */
  lemma IngestChunkNodes(nodes: Dict<string, Id>, rels: seq<Relationship>, mapping: Option<Dict<Id, ChunkRecord>>)
    requires Valid(nodes)
    requires mapping.Some? ==> Valid(mapping.value)
    ensures var ns := FilterMap(AsChunkNode, IngestToNeo4j(nodes, rels, mapping).0);
      && (!HasChunks(mapping) ==> ns == [])
      && (HasChunks(mapping) ==>
            var keys := mapping.value.keys;
            var m := mapping.value.m;
            && |ns| == |keys|
            && forall i | 0 <= i < |keys| ::
                 ns[i] == CreateChunk(keys[i], m[keys[i]].text, m[keys[i]].sourceFile, m[keys[i]].chunkIndex))
  {
    var b := FilterMap(AsChunkNode, ChunkPhase(mapping));
    assert FilterMap(AsChunkNode, IngestToNeo4j(nodes, rels, mapping).0) == b by {
      SessionProject(AsChunkNode, nodes, rels, mapping);
      EntityPhaseDropped(AsChunkNode, nodes);
      EdgePhaseDropped(AsChunkNode, rels);
      assert [] + (b + []) == b;
    }
    if HasChunks(mapping) {
      ChunkCommandsNodes(mapping.value, mapping.value.keys);
    }
  }

  /** For each chunk of a given mapping, exactly one MENTIONS command per
      distinct id of its `entity_ids`: the ids mentioned have no repeats
      and are exactly the recorded ones. */
  lemma IngestMentions(nodes: Dict<string, Id>, rels: seq<Relationship>, mapping: Option<Dict<Id, ChunkRecord>>, chunkId: Id)
    requires Valid(nodes)
    requires mapping.Some? ==> Valid(mapping.value)
    ensures var ms := FilterMap(MentionOf(chunkId), IngestToNeo4j(nodes, rels, mapping).0);
      && NoDup(ms)
      && (mapping.Some? && chunkId in mapping.value.m ==>
            forall e :: e in ms <==> e in mapping.value.m[chunkId].entityIds)
      && (mapping.None? || chunkId !in mapping.value.m ==> ms == [])
  {
    var f := MentionOf(chunkId);
    var b := FilterMap(f, ChunkPhase(mapping));
    assert FilterMap(f, IngestToNeo4j(nodes, rels, mapping).0) == b by {
      SessionProject(f, nodes, rels, mapping);
      EntityPhaseDropped(f, nodes);
      EdgePhaseDropped(f, rels);
      assert [] + (b + []) == b;
    }
    ChunkPhaseMentions(mapping, chunkId);
  }

  /** The chunk phase MENTIONs, from a chunk of the mapping, the distinct
      ids of its `entity_ids`, and nothing from any other chunk id. */
  lemma ChunkPhaseMentions(mapping: Option<Dict<Id, ChunkRecord>>, chunkId: Id)
    requires mapping.Some? ==> Valid(mapping.value)
    ensures FilterMap(MentionOf(chunkId), ChunkPhase(mapping)) ==
      if mapping.Some? && chunkId in mapping.value.m then Dedup(mapping.value.m[chunkId].entityIds) else []
  {
    if HasChunks(mapping) {
      ChunkCommandsMentions(mapping.value, mapping.value.keys, chunkId);
    } else if mapping.Some? {
      assert chunkId !in mapping.value.m;
    }
  }

  /** One relationship command per relationship, in order, with the
      sanitised type as label and the original type kept. */
  lemma IngestEdges(nodes: Dict<string, Id>, rels: seq<Relationship>, mapping: Option<Dict<Id, ChunkRecord>>)
    requires Valid(nodes)
    requires mapping.Some? ==> Valid(mapping.value)
    ensures var es := FilterMap(AsEdge, IngestToNeo4j(nodes, rels, mapping).0);
      && |es| == |rels|
      && forall i | 0 <= i < |rels| ::
           es[i] == CreateEdge(Sanitize(rels[i].relType), rels[i].source, rels[i].target, rels[i].relType, rels[i].sourceFile)
  {
    var c := FilterMap(AsEdge, EdgeCommands(rels));
    assert FilterMap(AsEdge, IngestToNeo4j(nodes, rels, mapping).0) == c by {
      SessionProject(AsEdge, nodes, rels, mapping);
      EntityPhaseDropped(AsEdge, nodes);
      ChunkPhaseDropped(AsEdge, mapping);
      assert [] + ([] + c) == c;
    }
    EdgeCommandsProject(rels);
    EdgeCommandsSpec(rels);
  }

  lemma {:induction false} EdgeCommandsProject(rels: seq<Relationship>)
    ensures FilterMap(AsEdge, EdgeCommands(rels)) == EdgeCommands(rels)
    decreases |rels|
  {
    if rels != [] {
      EdgeCommandsProject(rels[1..]);
      FilterMapAppend(AsEdge, [EdgeCommand(rels[0])], EdgeCommands(rels[1..]));
    }
  }

  /** The older ingester writes what the newer one writes without a chunk
      mapping, or with an empty one. */
  lemma LegacyIsWithoutChunks(nodes: Dict<string, Id>, rels: seq<Relationship>, mapping: Option<Dict<Id, ChunkRecord>>)
    requires Valid(nodes)
    requires mapping.Some? ==> Valid(mapping.value)
    requires !HasChunks(mapping)
    ensures LegacyIngestToNeo4j(nodes, rels) == IngestToNeo4j(nodes, rels, mapping)
  {
    assert EntityCommands(nodes, nodes.keys) + [] == EntityCommands(nodes, nodes.keys);
  }
}
