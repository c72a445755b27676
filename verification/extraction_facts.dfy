/** What `extract_graph_components` computes, stated against reference
    definitions: the chunk mapping follows the normalised chunk list, the
    names table holds exactly the mentioned names, the relationship list is
    the edges of the triples in chunk order, and the run fails exactly when
    some triple needs the id of the empty name. */
module ExtractionFacts {
  import opened Wrappers
  import opened Seqs
  import opened OrderedDict
  import opened Extraction

  // ------------------------------------------------------------------ per-triple reference facts

  /** Every id a chunk contributes to `entity_ids` is a value of the table. */
  lemma {:induction false} IdsOfValues(n: Dict<string, Id>, ts: seq<Triple>)
    requires Grounded(n, ts)
    ensures forall i | 0 <= i < |IdsOf(n, ts)| :: IdsOf(n, ts)[i] in n.m.Values
    decreases |ts|
  {
    if ts != [] {
      var t := ts[0];
      IdsOfSplit(n, ts, None);
      IdsOfValues(n, ts[1..]);
      var head := IdFor(n, t.node) + IdFor(n, t.targetNode);
      assert IdsOf(n, [t]) == head + IdsOf(n, []) by {
        assert [t][1..] == [];
      }
      forall i | 0 <= i < |IdsOf(n, ts)|
        ensures IdsOf(n, ts)[i] in n.m.Values
      {
        if i < |IdFor(n, t.node)| {
          assert IdsOf(n, ts)[i] == n.m[t.node];
        } else if i < |head| {
          assert IdsOf(n, ts)[i] == n.m[t.targetNode];
        } else {
          assert IdsOf(n, ts)[i] == IdsOf(n, ts[1..])[i - |head|];
        }
      }
    }
  }

  /** Node then target, per triple: a triple naming the same entity twice
      contributes its id twice. */
  lemma IdsOfKeepsDuplicates(n: Dict<string, Id>, name: string)
    requires name != "" && name in n.m
    ensures Grounded(n, [Triple(name, "", name)])
    ensures IdsOf(n, [Triple(name, "", name)]) == [n.m[name], n.m[name]]
  {
    var t := Triple(name, "", name);
    IdsOfOne(n, t);
  }

  /** At most one edge per triple. */
  lemma {:induction false} EdgesOfLength(n: Dict<string, Id>, ts: seq<Triple>, source: Option<string>)
    requires Grounded(n, ts)
    ensures |EdgesOf(n, ts, source)| <= |ts|
    decreases |ts|
  {
    if ts != [] {
      IdsOfSplit(n, ts, source);
      EdgesOfLength(n, ts[1..], source);
    }
  }

  /** `e` is the edge triple `t` yields in a chunk with source `source`. */
  predicate EdgeFor(n: Dict<string, Id>, t: Triple, source: Option<string>, e: Relationship) {
    && IsEdge(t) && t.node in n.m && t.targetNode in n.m
    && e == Relationship(n.m[t.node], n.m[t.targetNode], t.relationship, source)
  }

  /** Every edge comes from a triple with non-empty target and relationship,
      joins the ids of its node and target, and carries the chunk's source. */
  lemma {:induction false} EdgesOfSound(n: Dict<string, Id>, ts: seq<Triple>, source: Option<string>)
    requires Grounded(n, ts)
    ensures forall j | 0 <= j < |EdgesOf(n, ts, source)| ::
      exists i | 0 <= i < |ts| :: EdgeFor(n, ts[i], source, EdgesOf(n, ts, source)[j])
    decreases |ts|
  {
    if ts != [] {
      var t := ts[0];
      IdsOfSplit(n, ts, source);
      EdgesOfSound(n, ts[1..], source);
      var head := EdgesOf(n, [t], source);
      assert head == (if IsEdge(t) then [Relationship(n.m[t.node], n.m[t.targetNode], t.relationship, source)] else []) by {
        assert [t][1..] == [];
      }
      forall j | 0 <= j < |EdgesOf(n, ts, source)|
        ensures exists i | 0 <= i < |ts| :: EdgeFor(n, ts[i], source, EdgesOf(n, ts, source)[j])
      {
        if j < |head| {
          assert EdgesOf(n, ts, source)[j] == head[j];
          assert EdgeFor(n, ts[0], source, EdgesOf(n, ts, source)[j]);
        } else {
          var e := EdgesOf(n, ts[1..], source)[j - |head|];
          assert EdgesOf(n, ts, source)[j] == e;
          var i :| 0 <= i < |ts[1..]| && EdgeFor(n, ts[1..][i], source, e);
          assert EdgeFor(n, ts[i + 1], source, EdgesOf(n, ts, source)[j]);
        }
      }
    } else {
      assert EdgesOf(n, ts, source) == [];
    }
  }

  /** Every triple with non-empty target and relationship yields its edge. */
  lemma {:induction false} EdgesOfComplete(n: Dict<string, Id>, ts: seq<Triple>, source: Option<string>)
    requires Grounded(n, ts)
    ensures forall i | 0 <= i < |ts| && IsEdge(ts[i]) ::
      exists e | e in EdgesOf(n, ts, source) :: EdgeFor(n, ts[i], source, e)
    decreases |ts|
  {
    if ts != [] {
      var t := ts[0];
      IdsOfSplit(n, ts, source);
      EdgesOfComplete(n, ts[1..], source);
      var head := EdgesOf(n, [t], source);
      assert head == (if IsEdge(t) then [Relationship(n.m[t.node], n.m[t.targetNode], t.relationship, source)] else []) by {
        assert [t][1..] == [];
      }
      forall i | 0 <= i < |ts| && IsEdge(ts[i])
        ensures exists e | e in EdgesOf(n, ts, source) :: EdgeFor(n, ts[i], source, e)
      {
        if i == 0 {
          assert head[0] in EdgesOf(n, ts, source);
          assert EdgeFor(n, ts[i], source, head[0]);
        } else {
          assert ts[i] == ts[1..][i - 1];
          var e :| e in EdgesOf(n, ts[1..], source) && EdgeFor(n, ts[1..][i - 1], source, e);
          assert e in EdgesOf(n, ts, source);
        }
      }
    }
  }

  /** A grounded chunk's table binds every name its triples mention. */
  lemma {:induction false} MentionedBound(n: Dict<string, Id>, ts: seq<Triple>)
    requires Grounded(n, ts)
    ensures forall x | x in Mentioned(ts) :: x in n.m
    decreases |ts|
  {
    if ts != [] {
      GroundedSplit(n, ts);
      MentionedBound(n, ts[1..]);
      assert [ts[0]][0] == ts[0];
    }
  }

  // ------------------------------------------------------------------ positions split off the front

  lemma HasBadSplit(answer: Answer, idx: nat, n: nat)
    requires n > 0
    ensures HasBad(answer, idx, n) <==>
      (exists i :: 0 <= i < |answer(idx)| && Bad(answer(idx)[i])) || HasBad(answer, idx + 1, n - 1)
  {
    if HasBad(answer, idx, n) {
      var k, i :| idx <= k < idx + n && 0 <= i < |answer(k)| && Bad(answer(k)[i]);
      if k > idx {
        assert HasBad(answer, idx + 1, n - 1);
      }
    }
    if exists i :: 0 <= i < |answer(idx)| && Bad(answer(idx)[i]) {
      var i :| 0 <= i < |answer(idx)| && Bad(answer(idx)[i]);
      assert HasBad(answer, idx, n);
    }
  }

  lemma MentionedBySplit(answer: Answer, idx: nat, n: nat, x: string)
    requires n > 0
    ensures MentionedBy(answer, idx, n, x) <==> x in Mentioned(answer(idx)) || MentionedBy(answer, idx + 1, n - 1, x)
  {
    if MentionedBy(answer, idx, n, x) {
      var k :| idx <= k < idx + n && x in Mentioned(answer(k));
      if k > idx {
        assert MentionedBy(answer, idx + 1, n - 1, x);
      }
    }
    if x in Mentioned(answer(idx)) {
      assert MentionedBy(answer, idx, n, x);
    }
  }

  // ------------------------------------------------------------------ one chunk

  /** A chunk's step is its triple loop from `ChunkStart`, then the record. */
  lemma StepChunkShape(st: State, c: Chunk, idx: nat, uuid: IdSource, answer: Answer)
    requires StateOk(st)
    ensures var res := RunTriples(ChunkStart(st), answer(idx), c.source, uuid);
      && (res.Failure? ==> StepChunk(st, c, idx, uuid, answer) == Failure(res.error))
      && (res.Success? ==>
            StepChunk(st, c, idx, uuid, answer) ==
            Success(State(res.value.names, res.value.relationships,
              Set(st.mapping, uuid(st.names.used), ChunkRecord(c.text, c.source, idx, res.value.entityIds)))))
  {
  }

  lemma StepChunkFails(st: State, c: Chunk, idx: nat, uuid: IdSource, answer: Answer)
    requires StateOk(st)
    ensures StepChunk(st, c, idx, uuid, answer).Failure? <==> exists i :: 0 <= i < |answer(idx)| && Bad(answer(idx)[i])
    ensures StepChunk(st, c, idx, uuid, answer).Failure? ==> StepChunk(st, c, idx, uuid, answer).error == UnknownNode("")
  {
    StepChunkShape(st, c, idx, uuid, answer);
    RunTriplesFails(ChunkStart(st), answer(idx), c.source, uuid);
  }

  lemma StepChunkGrows(st: State, c: Chunk, idx: nat, uuid: IdSource, answer: Answer)
    requires StateOk(st) && StepChunk(st, c, idx, uuid, answer).Success?
    ensures var st1 := StepChunk(st, c, idx, uuid, answer).value;
      && Extends(st.names.nodes, st1.names.nodes)
      && Grounded(st1.names.nodes, answer(idx))
      && st.names.used + 1 <= st1.names.used
      && (forall x | x in st1.names.nodes.m :: x in st.names.nodes.m || x in Mentioned(answer(idx)))
  {
    var res := RunTriples(ChunkStart(st), answer(idx), c.source, uuid);
    assert res.Success? && StepChunk(st, c, idx, uuid, answer).value.names == res.value.names by {
      StepChunkShape(st, c, idx, uuid, answer);
    }
    RunTriplesGrows(ChunkStart(st), answer(idx), c.source, uuid);
    RunTriplesKeys(ChunkStart(st), answer(idx), c.source, uuid);
  }

  lemma StepChunkEdges(st: State, c: Chunk, idx: nat, uuid: IdSource, answer: Answer)
    requires StateOk(st) && StepChunk(st, c, idx, uuid, answer).Success?
    ensures var st1 := StepChunk(st, c, idx, uuid, answer).value;
      && Grounded(st1.names.nodes, answer(idx))
      && st1.relationships == st.relationships + EdgesOf(st1.names.nodes, answer(idx), c.source)
  {
    var res := RunTriples(ChunkStart(st), answer(idx), c.source, uuid);
    assert res.Success? && StepChunk(st, c, idx, uuid, answer).value.names == res.value.names
      && StepChunk(st, c, idx, uuid, answer).value.relationships == res.value.relationships by {
      StepChunkShape(st, c, idx, uuid, answer);
    }
    RunTriplesEdges(ChunkStart(st), answer(idx), c.source, uuid);
  }

  /** A chunk's finished triple run is grounded, and its `entity_ids` are
      the ids of its triples' non-empty names. */
  lemma ChunkRunIds(st: State, ts: seq<Triple>, source: Option<string>, uuid: IdSource, w: Work)
    requires StateOk(st) && RunTriples(ChunkStart(st), ts, source, uuid) == Success(w)
    ensures Grounded(w.names.nodes, ts) && w.entityIds == IdsOf(w.names.nodes, ts)
  {
    RunTriplesIds(ChunkStart(st), ts, source, uuid);
    assert [] + IdsOf(w.names.nodes, ts) == IdsOf(w.names.nodes, ts);
  }

  lemma StepChunkRecord(st: State, c: Chunk, idx: nat, uuid: IdSource, answer: Answer)
    requires StateOk(st) && StepChunk(st, c, idx, uuid, answer).Success?
    ensures var st1 := StepChunk(st, c, idx, uuid, answer).value;
      && Grounded(st1.names.nodes, answer(idx))
      && st1.mapping == Set(st.mapping, uuid(st.names.used), ChunkRecord(c.text, c.source, idx, IdsOf(st1.names.nodes, answer(idx))))
  {
    var res := RunTriples(ChunkStart(st), answer(idx), c.source, uuid);
    StepChunkShape(st, c, idx, uuid, answer);
    ChunkRunIds(st, answer(idx), c.source, uuid, res.value);
  }

  // ------------------------------------------------------------------ the chunk loop

  /** The loop fails exactly when some chunk has a `Bad` triple. */
  lemma {:induction false} RunChunksFails(st: State, cs: seq<Chunk>, idx: nat, uuid: IdSource, answer: Answer)
    requires StateOk(st)
    ensures RunChunks(st, cs, idx, uuid, answer).Failure? <==> HasBad(answer, idx, |cs|)
    ensures RunChunks(st, cs, idx, uuid, answer).Failure? ==> RunChunks(st, cs, idx, uuid, answer).error == UnknownNode("")
    decreases |cs|
  {
    if cs != [] {
      StepChunkFails(st, cs[0], idx, uuid, answer);
      HasBadSplit(answer, idx, |cs|);
      if StepChunk(st, cs[0], idx, uuid, answer).Success? {
        var st1 := StepChunk(st, cs[0], idx, uuid, answer).value;
        assert RunChunks(st, cs, idx, uuid, answer) == RunChunks(st1, cs[1..], idx + 1, uuid, answer);
        RunChunksFails(st1, cs[1..], idx + 1, uuid, answer);
      }
    }
  }

  /** Groundedness of the first chunk and of the rest is groundedness of
      all of them. */
  lemma ChunksGroundedCons(nodes: Dict<string, Id>, cs: seq<Chunk>, idx: nat, answer: Answer)
    requires cs != [] && Grounded(nodes, answer(idx)) && ChunksGrounded(nodes, idx + 1, |cs[1..]|, answer)
    ensures ChunksGrounded(nodes, idx, |cs|, answer)
  {
  }

  /** The names table only grows, binds every name of every chunk, and at
      least one id is drawn per chunk. */
  lemma {:induction false} RunChunksGrows(st: State, cs: seq<Chunk>, idx: nat, uuid: IdSource, answer: Answer)
    requires StateOk(st) && RunChunks(st, cs, idx, uuid, answer).Success?
    ensures var r := RunChunks(st, cs, idx, uuid, answer).value;
      && Extends(st.names.nodes, r.names.nodes)
      && ChunksGrounded(r.names.nodes, idx, |cs|, answer)
      && st.names.used + |cs| <= r.names.used
    decreases |cs|
  {
    if cs == [] {
      ExtendsRefl(st.names.nodes);
    } else {
      var st1 := StepChunk(st, cs[0], idx, uuid, answer).value;
      var r := RunChunks(st1, cs[1..], idx + 1, uuid, answer);
      assert RunChunks(st, cs, idx, uuid, answer) == r;
      var n1 := st1.names.nodes;
      var rn := r.value.names.nodes;
      assert Extends(st.names.nodes, n1) && Grounded(n1, answer(idx)) && st.names.used + 1 <= st1.names.used by {
        StepChunkGrows(st, cs[0], idx, uuid, answer);
      }
      assert Extends(n1, rn) && ChunksGrounded(rn, idx + 1, |cs[1..]|, answer) && st1.names.used + |cs[1..]| <= r.value.names.used by {
        RunChunksGrows(st1, cs[1..], idx + 1, uuid, answer);
      }
      assert Grounded(rn, answer(idx)) by {
        IdsOfStable(n1, rn, answer(idx));
      }
      ChunksGroundedCons(rn, cs, idx, answer);
      ExtendsTrans(st.names.nodes, n1, rn);
    }
  }

  /** The relationships appended are the edges of the chunks' triples, in
      chunk order, looked up in the final table. */
  lemma {:induction false} RunChunksEdges(st: State, cs: seq<Chunk>, idx: nat, uuid: IdSource, answer: Answer)
    requires StateOk(st) && RunChunks(st, cs, idx, uuid, answer).Success?
    ensures var r := RunChunks(st, cs, idx, uuid, answer).value;
      && ChunksGrounded(r.names.nodes, idx, |cs|, answer)
      && r.relationships == st.relationships + AllEdges(r.names.nodes, cs, idx, answer)
    decreases |cs|
  {
    RunChunksGrows(st, cs, idx, uuid, answer);
    if cs != [] {
      var st1 := StepChunk(st, cs[0], idx, uuid, answer).value;
      var r := RunChunks(st1, cs[1..], idx + 1, uuid, answer);
      assert RunChunks(st, cs, idx, uuid, answer) == r;
      var n1 := st1.names.nodes;
      var rn := r.value.names.nodes;
      var src := cs[0].source;
      assert Grounded(n1, answer(idx)) && st1.relationships == st.relationships + EdgesOf(n1, answer(idx), src) by {
        StepChunkEdges(st, cs[0], idx, uuid, answer);
      }
      assert ChunksGrounded(rn, idx + 1, |cs| - 1, answer)
        && r.value.relationships == st1.relationships + AllEdges(rn, cs[1..], idx + 1, answer) by {
        RunChunksEdges(st1, cs[1..], idx + 1, uuid, answer);
      }
      assert Grounded(rn, answer(idx)) && EdgesOf(n1, answer(idx), src) == EdgesOf(rn, answer(idx), src) by {
        RunChunksGrows(st1, cs[1..], idx + 1, uuid, answer);
        EdgesOfStable(n1, rn, answer(idx), src);
      }
      assert ChunksGrounded(rn, idx, |cs|, answer);
      assert AllEdges(rn, cs, idx, answer) == EdgesOf(rn, answer(idx), src) + AllEdges(rn, cs[1..], idx + 1, answer);
      AppendAssoc(st.relationships, EdgesOf(rn, answer(idx), src), AllEdges(rn, cs[1..], idx + 1, answer));
    }
  }

  /** Every name the table gains is mentioned by one of the chunks. */
  lemma {:induction false} RunChunksKeys(st: State, cs: seq<Chunk>, idx: nat, uuid: IdSource, answer: Answer)
    requires StateOk(st) && RunChunks(st, cs, idx, uuid, answer).Success?
    ensures var r := RunChunks(st, cs, idx, uuid, answer).value;
      forall x | x in r.names.nodes.m :: x in st.names.nodes.m || MentionedBy(answer, idx, |cs|, x)
    decreases |cs|
  {
    if cs != [] {
      var st1 := StepChunk(st, cs[0], idx, uuid, answer).value;
      var r := RunChunks(st1, cs[1..], idx + 1, uuid, answer);
      assert RunChunks(st, cs, idx, uuid, answer) == r;
      StepChunkGrows(st, cs[0], idx, uuid, answer);
      RunChunksKeys(st1, cs[1..], idx + 1, uuid, answer);
      forall x | x in r.value.names.nodes.m
        ensures x in st.names.nodes.m || MentionedBy(answer, idx, |cs|, x)
      {
        MentionedBySplit(answer, idx, |cs|, x);
      }
    }
  }

  /** With distinct uuids, a chunk's id is not yet a key: all keys so far
      were drawn earlier. */
  lemma StepChunkFreshKey(st: State, c: Chunk, idx: nat, uuid: IdSource, answer: Answer)
    requires StateOk(st) && StepChunk(st, c, idx, uuid, answer).Success?
    requires Injective(uuid)
    requires forall x | x in st.mapping.m :: Issued(uuid, x, st.names.used)
    ensures var st1 := StepChunk(st, c, idx, uuid, answer).value;
      && Grounded(st1.names.nodes, answer(idx))
      && st1.mapping.keys == st.mapping.keys + [uuid(st.names.used)]
      && st1.mapping.m == st.mapping.m[uuid(st.names.used) := ChunkRecord(c.text, c.source, idx, IdsOf(st1.names.nodes, answer(idx)))]
      && (forall x | x in st1.mapping.m :: Issued(uuid, x, st1.names.used))
  {
    var id := uuid(st.names.used);
    var st1 := StepChunk(st, c, idx, uuid, answer).value;
    assert id !in st.mapping.m by {
      forall j: nat | j < st.names.used
        ensures uuid(j) != id
      {
      }
    }
    StepChunkRecord(st, c, idx, uuid, answer);
    assert st.names.used + 1 <= st1.names.used by {
      StepChunkGrows(st, c, idx, uuid, answer);
    }
    forall x | x in st1.mapping.m
      ensures Issued(uuid, x, st1.names.used)
    {
      if x == id {
        assert uuid(st.names.used) == x;
      } else {
        var j: nat :| j < st.names.used && uuid(j) == x;
      }
    }
  }

  /** With distinct uuids, every chunk draws an id not yet in the mapping,
      so the mapping gains exactly one key per chunk, appended. */
  lemma {:induction false} RunChunksMappingKeys(st: State, cs: seq<Chunk>, idx: nat, uuid: IdSource, answer: Answer)
    requires StateOk(st) && RunChunks(st, cs, idx, uuid, answer).Success?
    requires Injective(uuid)
    requires forall x | x in st.mapping.m :: Issued(uuid, x, st.names.used)
    ensures var r := RunChunks(st, cs, idx, uuid, answer).value;
      && Extends(st.mapping, r.mapping)
      && |r.mapping.keys| == |st.mapping.keys| + |cs|
      && (forall x | x in r.mapping.m :: Issued(uuid, x, r.names.used))
    decreases |cs|
  {
    if cs == [] {
      ExtendsRefl(st.mapping);
    } else {
      var st1 := StepChunk(st, cs[0], idx, uuid, answer).value;
      var r := RunChunks(st1, cs[1..], idx + 1, uuid, answer);
      assert RunChunks(st, cs, idx, uuid, answer) == r;
      assert Extends(st.mapping, st1.mapping) && |st1.mapping.keys| == |st.mapping.keys| + 1
        && (forall x | x in st1.mapping.m :: Issued(uuid, x, st1.names.used)) by {
        StepChunkFreshKey(st, cs[0], idx, uuid, answer);
        assert st1.mapping.keys[..|st.mapping.keys|] == st.mapping.keys;
      }
      RunChunksMappingKeys(st1, cs[1..], idx + 1, uuid, answer);
      ExtendsTrans(st.mapping, st1.mapping, r.value.mapping);
    }
  }

  /** The value stored under the key at position `pos` of `m`, if any. */
  function EntryAt<K, V>(m: Dict<K, V>, pos: nat): Option<V> {
    if pos < |m.keys| && m.keys[pos] in m.m then Some(m.m[m.keys[pos]]) else None
  }

  /** The record for chunk `c`, found at global position `i`, with the ids
      its triples have in `nodes`; `None` unless all of them are bound. */
  function ExpectedRecord(c: Chunk, i: nat, nodes: Dict<string, Id>, answer: Answer): Option<ChunkRecord> {
    if Grounded(nodes, answer(i)) then Some(ChunkRecord(c.text, c.source, i, IdsOf(nodes, answer(i)))) else None
  }

  /** The key at position `pos` of the mapping records chunk `c`, found at
      global position `i`, with the ids its triples have in `nodes` (where
      all of them are bound). */
  predicate RecordAt(m: Dict<Id, ChunkRecord>, pos: nat, c: Chunk, i: nat, nodes: Dict<string, Id>, answer: Answer) {
    ExpectedRecord(c, i, nodes, answer).Some? && EntryAt(m, pos) == ExpectedRecord(c, i, nodes, answer)
  }

  /** What `RecordAt` says, written out. */
  lemma RecordAtMeans(m: Dict<Id, ChunkRecord>, pos: nat, c: Chunk, i: nat, nodes: Dict<string, Id>, answer: Answer)
    requires RecordAt(m, pos, c, i, nodes, answer)
    ensures Grounded(nodes, answer(i))
    ensures pos < |m.keys| && m.keys[pos] in m.m
    ensures m.m[m.keys[pos]] == ChunkRecord(c.text, c.source, i, IdsOf(nodes, answer(i)))
  {
  }

  /** The key the first chunk of a run appends maps to that chunk's text,
      source, position and the ids its triples have in the final graph. */
  lemma RunChunksFirstRecord(st: State, cs: seq<Chunk>, idx: nat, uuid: IdSource, answer: Answer, r: State, k: nat, c: Chunk)
    requires StateOk(st) && RunChunks(st, cs, idx, uuid, answer) == Success(r)
    requires Injective(uuid)
    requires forall x | x in st.mapping.m :: Issued(uuid, x, st.names.used)
    requires cs != [] && k == |st.mapping.keys| && c == cs[0]
    ensures RecordAt(r.mapping, k, c, idx, r.names.nodes, answer)
  {
    var base := |st.mapping.keys|;
    var id := uuid(st.names.used);
    var st1 := StepChunk(st, cs[0], idx, uuid, answer).value;
    assert RunChunks(st1, cs[1..], idx + 1, uuid, answer) == Success(r);
    var rn := r.names.nodes;
    var rm := r.mapping;
    var n1 := st1.names.nodes;
    assert StateOk(st1) && (forall x | x in st1.mapping.m :: Issued(uuid, x, st1.names.used))
      && st1.mapping.keys == st.mapping.keys + [id]
      && Grounded(n1, answer(idx))
      && st1.mapping.m[id] == ChunkRecord(cs[0].text, cs[0].source, idx, IdsOf(n1, answer(idx))) by {
      StepChunkFreshKey(st, cs[0], idx, uuid, answer);
    }
    assert Grounded(rn, answer(idx)) && IdsOf(n1, answer(idx)) == IdsOf(rn, answer(idx)) by {
      RunChunksGrows(st1, cs[1..], idx + 1, uuid, answer);
      IdsOfStable(n1, rn, answer(idx));
    }
    assert Extends(st1.mapping, rm) && |rm.keys| == base + |cs| by {
      RunChunksMappingKeys(st1, cs[1..], idx + 1, uuid, answer);
    }
    assert rm.keys[base] == id by {
      assert rm.keys[..|st1.mapping.keys|] == st1.mapping.keys;
      assert st1.mapping.keys[base] == id;
    }
    assert id in rm.m && rm.m[id] == st1.mapping.m[id];
  }

  /** One step of a successful run: the first chunk leads to a state that
      keeps the invariants and from which the rest of the run reaches the
      same final state. */
  lemma RunChunksStep(st: State, cs: seq<Chunk>, idx: nat, uuid: IdSource, answer: Answer, r: State) returns (st1: State)
    requires StateOk(st) && RunChunks(st, cs, idx, uuid, answer) == Success(r)
    requires Injective(uuid)
    requires forall x | x in st.mapping.m :: Issued(uuid, x, st.names.used)
    requires cs != []
    ensures StateOk(st1) && RunChunks(st1, cs[1..], idx + 1, uuid, answer) == Success(r)
    ensures forall x | x in st1.mapping.m :: Issued(uuid, x, st1.names.used)
    ensures |st1.mapping.keys| == |st.mapping.keys| + 1
  {
    st1 := StepChunk(st, cs[0], idx, uuid, answer).value;
    assert RunChunks(st1, cs[1..], idx + 1, uuid, answer) == Success(r);
    StepChunkFreshKey(st, cs[0], idx, uuid, answer);
  }

  /** `RunChunksStep` for the chunks from position `from` on of `all`. */
  lemma RunChunksStepAt(st: State, all: seq<Chunk>, from: nat, uuid: IdSource, answer: Answer, r: State) returns (st1: State)
    requires StateOk(st) && from < |all| && RunChunks(st, all[from..], from, uuid, answer) == Success(r)
    requires Injective(uuid)
    requires forall x | x in st.mapping.m :: Issued(uuid, x, st.names.used)
    ensures StateOk(st1) && RunChunks(st1, all[from + 1..], from + 1, uuid, answer) == Success(r)
    ensures forall x | x in st1.mapping.m :: Issued(uuid, x, st1.names.used)
    ensures |st1.mapping.keys| == |st.mapping.keys| + 1
  {
    st1 := RunChunksStep(st, all[from..], from, uuid, answer, r);
    assert all[from..][1..] == all[from + 1..];
  }

  /** `RunChunksFirstRecord` for the chunks from position `from` on of `all`. */
  lemma RunChunksFirstRecordAt(st: State, all: seq<Chunk>, from: nat, uuid: IdSource, answer: Answer, r: State, k: nat)
    requires StateOk(st) && from < |all| && RunChunks(st, all[from..], from, uuid, answer) == Success(r)
    requires Injective(uuid)
    requires forall x | x in st.mapping.m :: Issued(uuid, x, st.names.used)
    requires k == |st.mapping.keys|
    ensures RecordAt(r.mapping, k, all[from], from, r.names.nodes, answer)
  {
    RunChunksFirstRecord(st, all[from..], from, uuid, answer, r, k, all[from]);
  }

  /** A run over the chunks from position `from` on of `all` appends, for
      the chunk at each later position `pos`, a key at position
      `k == |st.mapping.keys| + (pos - from)` of the mapping, which maps to
      that chunk's text, source, position and the ids its triples mention. */
  lemma {:induction false} RunChunksRecord(st: State, all: seq<Chunk>, from: nat, uuid: IdSource, answer: Answer, r: State, pos: nat, k: nat)
    requires StateOk(st) && from <= pos < |all| && RunChunks(st, all[from..], from, uuid, answer) == Success(r)
    requires Injective(uuid)
    requires forall x | x in st.mapping.m :: Issued(uuid, x, st.names.used)
    requires k == |st.mapping.keys| + (pos - from)
    ensures RecordAt(r.mapping, k, all[pos], pos, r.names.nodes, answer)
    decreases |all| - from
  {
    if pos == from {
      RunChunksFirstRecordAt(st, all, from, uuid, answer, r, k);
    } else {
      var st1 := RunChunksStepAt(st, all, from, uuid, answer, r);
      RunChunksRecord(st1, all, from + 1, uuid, answer, r, pos, k);
    }
  }


}
