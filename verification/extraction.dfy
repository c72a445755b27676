/** Graph extraction bookkeeping of the ingestion orchestrator
    (`Orchestrator.extract_graph_components`).

    The raw input is flattened into a list of chunks; every chunk receives a
    fresh id and an entry in the chunk mapping; for each chunk the LLM returns
    `(node, relationship, target_node)` triples, whose non-empty names are
    de-duplicated into a name -> id table, whose ids are appended to the
    chunk's `entity_ids`, and which yield an edge when both `target_node` and
    `relationship` are non-empty.

    The LLM is an input: `answer(k)` is the list of triples returned for the
    k-th chunk. `uuid.uuid4()` is an input too: `uuid(j)` is the value of its
    j-th call during the run. */
module Extraction {
  import opened Wrappers
  import opened Seqs
  import opened OrderedDict

  type Id = string

  /** `uuid(j)` is the string of the j-th `uuid.uuid4()` call of a run. */
  type IdSource = nat -> Id

  /** The LLM's answer for the chunk at each global position. */
  type Answer = nat -> seq<Triple>

  /** Distinct calls give distinct ids (what uuid4 is relied on for). */
  ghost predicate Injective(uuid: IdSource) {
    forall i: nat, j: nat :: uuid(i) == uuid(j) ==> i == j
  }

  /** `x` is one of the first `n` ids drawn. */
  ghost predicate Issued(uuid: IdSource, x: Id, n: nat) {
    exists j: nat :: j < n && uuid(j) == x
  }

  // ------------------------------------------------------------------ data

  /** One element of the LLM's `graph` list. */
  datatype Triple = Triple(node: string, relationship: string, targetNode: string)

  /** An element of a list input whose values are strings: a dict with a
      `"chunks"` list of strings (its `"file"` key may be missing), or a
      string, which is used as chunk text. */
  datatype Entry = ChunkedFile(file: Option<string>, chunks: seq<string>) | Item(text: string)

  /** The `raw_text` argument: a string, a list, or a value of another type. */
  datatype RawText = Text(s: string) | Entries(entries: seq<Entry>) | Unsupported

  datatype Chunk = Chunk(text: string, source: Option<string>)

  /** A value of `chunk_node_mapping`. */
  datatype ChunkRecord = ChunkRecord(text: string, sourceFile: Option<string>, chunkIndex: nat, entityIds: seq<Id>)

  /** An element of `relationships`. */
  datatype Relationship = Relationship(source: Id, target: Id, relType: string, sourceFile: Option<string>)

  /** `ValueError` for an unsupported input; `KeyError` for a lookup of a
      name that has no id. */
  datatype ExtractError = NotStringOrList | UnknownNode(name: string)

  /** The triple `(nodes, relationships, chunk_node_mapping)` returned. */
  datatype Graph = Graph(nodes: Dict<string, Id>, relationships: seq<Relationship>, chunkMapping: Dict<Id, ChunkRecord>)

  // ------------------------------------------------------------------ normalisation

  function Expand(e: Entry): seq<Chunk> {
    match e
    case ChunkedFile(file, cs) => seq(|cs|, i requires 0 <= i < |cs| => Chunk(cs[i], file))
    case Item(t) => [Chunk(t, None)]
  }

  function Flatten(es: seq<Entry>): seq<Chunk> {
    if es == [] then [] else Expand(es[0]) + Flatten(es[1..])
  }

  /** The chunk list `chunks_to_process`. */
  function Normalise(raw: RawText): Result<seq<Chunk>, ExtractError> {
    match raw
    case Text(s) => Success([Chunk(s, None)])
    case Entries(es) => Success(Flatten(es))
    case Unsupported => Failure(NotStringOrList)
  }

  /** Position in the chunk list of the first chunk of entry `j`. */
  function Offset(es: seq<Entry>, j: nat): nat
    requires j <= |es|
  {
    |Flatten(es[..j])|
  }

  lemma {:induction false} FlattenAppend(a: seq<Entry>, b: seq<Entry>)
    ensures Flatten(a + b) == Flatten(a) + Flatten(b)
  {
    if a == [] {
      assert a + b == b;
    } else {
      assert (a + b)[0] == a[0];
      assert (a + b)[1..] == a[1..] + b;
      FlattenAppend(a[1..], b);
    }
  }

  /** A string input is one chunk without a source; any input that is
      neither a string nor a list is rejected. */
  lemma NormaliseScalar(raw: RawText)
    requires !raw.Entries?
    ensures raw.Text? ==> Normalise(raw) == Success([Chunk(raw.s, None)])
    ensures raw.Unsupported? ==> Normalise(raw) == Failure(NotStringOrList)
  {
  }

  /** A list input becomes, entry by entry, one chunk per element of a
      `"chunks"` dict tagged with its `"file"`, or one source-less chunk for
      any other entry; the chunks of entry `j` start at `Offset(es, j)`. */
  lemma {:induction false} NormaliseEntries(es: seq<Entry>, j: nat, i: nat)
    requires j < |es|
    requires es[j].ChunkedFile? ==> i < |es[j].chunks|
    requires es[j].Item? ==> i == 0
    ensures Normalise(Entries(es)).Success?
    ensures Offset(es, j) + i < |Normalise(Entries(es)).value|
    ensures Normalise(Entries(es)).value[Offset(es, j) + i] ==
      match es[j]
      case ChunkedFile(file, cs) => Chunk(cs[i], file)
      case Item(t) => Chunk(t, None)
  {
    assert es == es[..j] + ([es[j]] + es[j + 1..]);
    FlattenAppend(es[..j], [es[j]] + es[j + 1..]);
    FlattenAppend([es[j]], es[j + 1..]);
    assert Flatten([es[j]]) == Expand(es[j]) + Flatten([]);
  }

  /** The number of chunks of a list input is the sum of its entries' sizes. */
  lemma {:induction false} NormaliseLength(es: seq<Entry>)
    ensures |Normalise(Entries(es)).value| == Offset(es, |es|)
  {
    assert es[..|es|] == es;
  }

  // ------------------------------------------------------------------ the name -> id table

  /** The names table and the number of uuid4 calls made so far. */
  datatype Names = Names(nodes: Dict<string, Id>, used: nat)

  /** The table is well formed and never binds the empty name. */
  predicate NamesOk(ns: Names) {
    Valid(ns.nodes) && "" !in ns.nodes.m
  }

  /** Binds a non-empty, unseen name to the next drawn id; any other name
      leaves the table as it is. */
  function Register(ns: Names, name: string, uuid: IdSource): (r: Names)
    requires NamesOk(ns)
    ensures NamesOk(r)
    ensures Extends(ns.nodes, r.nodes)
    ensures name != "" ==> name in r.nodes.m
    ensures forall x | x in r.nodes.m :: x in ns.nodes.m || x == name
    ensures ns.used <= r.used
  {
    if name != "" && name !in ns.nodes.m then Names(Set(ns.nodes, name, uuid(ns.used)), ns.used + 1)
    else ns
  }

  // ------------------------------------------------------------------ reference definitions

  /** A triple that yields an edge. */
  predicate IsEdge(t: Triple) {
    t.targetNode != "" && t.relationship != ""
  }

  /** A triple whose edge needs the id of the empty name, which is never bound. */
  predicate Bad(t: Triple) {
    t.node == "" && IsEdge(t)
  }

  /** The non-empty names a triple mentions, node first. */
  function MentionedIn(t: Triple): seq<string> {
    (if t.node != "" then [t.node] else []) + (if t.targetNode != "" then [t.targetNode] else [])
  }

  function Mentioned(ts: seq<Triple>): seq<string> {
    if ts == [] then [] else MentionedIn(ts[0]) + Mentioned(ts[1..])
  }

  /** Every name `ts` mentions has an id in `nodes`, and no triple is `Bad`. */
  predicate Grounded(nodes: Dict<string, Id>, ts: seq<Triple>) {
    forall i | 0 <= i < |ts| ::
      && (ts[i].node != "" ==> ts[i].node in nodes.m)
      && (ts[i].targetNode != "" ==> ts[i].targetNode in nodes.m)
      && !Bad(ts[i])
  }

  /** The id list `[nodes[name]]` appended for a non-empty name, `[]` for
      the empty one. */
  function IdFor(nodes: Dict<string, Id>, name: string): seq<Id>
    requires name != "" ==> name in nodes.m
  {
    if name != "" then [nodes.m[name]] else []
  }

  /** The ids a chunk's triples put into its `entity_ids`, looked up in
      `nodes`: node then target, per triple, duplicates included. */
  function IdsOf(nodes: Dict<string, Id>, ts: seq<Triple>): seq<Id>
    requires Grounded(nodes, ts)
  {
    if ts == [] then []
    else IdFor(nodes, ts[0].node) + IdFor(nodes, ts[0].targetNode) + IdsOf(nodes, ts[1..])
  }

  /** The edges the triples of one chunk contribute, looked up in `nodes`. */
  function EdgesOf(nodes: Dict<string, Id>, ts: seq<Triple>, source: Option<string>): seq<Relationship>
    requires Grounded(nodes, ts)
  {
    if ts == [] then []
    else
      (if IsEdge(ts[0])
       then [Relationship(nodes.m[ts[0].node], nodes.m[ts[0].targetNode], ts[0].relationship, source)]
       else [])
      + EdgesOf(nodes, ts[1..], source)
  }

  /** Every chunk at positions `idx .. idx + n - 1` has grounded triples. */
  predicate ChunksGrounded(nodes: Dict<string, Id>, idx: nat, n: nat, answer: Answer) {
    forall k | idx <= k < idx + n :: Grounded(nodes, answer(k))
  }

  /** The edges of the chunks `cs`, which sit at positions `idx ..`. */
  function AllEdges(nodes: Dict<string, Id>, cs: seq<Chunk>, idx: nat, answer: Answer): seq<Relationship>
    requires ChunksGrounded(nodes, idx, |cs|, answer)
    decreases |cs|
  {
    if cs == [] then []
    else EdgesOf(nodes, answer(idx), cs[0].source) + AllEdges(nodes, cs[1..], idx + 1, answer)
  }

  /** Some chunk at positions `idx .. idx + n - 1` has a `Bad` triple. */
  ghost predicate HasBad(answer: Answer, idx: nat, n: nat) {
    exists k, i :: idx <= k < idx + n && 0 <= i < |answer(k)| && Bad(answer(k)[i])
  }

  /** `x` is mentioned by a chunk at positions `idx .. idx + n - 1`. */
  ghost predicate MentionedBy(answer: Answer, idx: nat, n: nat, x: string) {
    exists k :: idx <= k < idx + n && x in Mentioned(answer(k))
  }

  /** Number of triples returned for positions `idx .. idx + n - 1`. */
  function TripleCount(answer: Answer, idx: nat, n: nat): nat
    decreases n
  {
    if n == 0 then 0 else |answer(idx)| + TripleCount(answer, idx + 1, n - 1)
  }

  // ------------------------------------------------------------------ the run

  /** State while the triples of one chunk are processed. */
  datatype Work = Work(names: Names, entityIds: seq<Id>, relationships: seq<Relationship>)

  /** One iteration of the loop over `parsed_response`. */
  function StepTriple(w: Work, t: Triple, source: Option<string>, uuid: IdSource): (r: Result<Work, ExtractError>)
    requires NamesOk(w.names)
    ensures r.Success? ==> NamesOk(r.value.names)
  {
    var n1 := Register(w.names, t.node, uuid);
    var ids1 := w.entityIds + IdFor(n1.nodes, t.node);
    var n2 := Register(n1, t.targetNode, uuid);
    var ids2 := ids1 + IdFor(n2.nodes, t.targetNode);
    if t.targetNode != "" && t.relationship != "" then
      if t.node in n2.nodes.m then
        Success(Work(n2, ids2, w.relationships
          + [Relationship(n2.nodes.m[t.node], n2.nodes.m[t.targetNode], t.relationship, source)]))
      else
        Failure(UnknownNode(t.node))
    else
      Success(Work(n2, ids2, w.relationships))
  }

  function RunTriples(w: Work, ts: seq<Triple>, source: Option<string>, uuid: IdSource): (r: Result<Work, ExtractError>)
    requires NamesOk(w.names)
    ensures r.Success? ==> NamesOk(r.value.names)
    decreases |ts|
  {
    if ts == [] then Success(w)
    else
      match StepTriple(w, ts[0], source, uuid)
      case Failure(e) => Failure(e)
      case Success(w1) => RunTriples(w1, ts[1..], source, uuid)
  }

  /** State between chunks. */
  datatype State = State(names: Names, relationships: seq<Relationship>, mapping: Dict<Id, ChunkRecord>)

  predicate StateOk(st: State) {
    NamesOk(st.names) && Valid(st.mapping)
  }

  /** The triple loop of a chunk starts from the names table with the
      chunk's own id drawn, an empty `entity_ids` and the relationships so
      far. */
  function ChunkStart(st: State): Work {
    Work(Names(st.names.nodes, st.names.used + 1), [], st.relationships)
  }

  /** One iteration of `for idx, chunk in enumerate(chunks_to_process)`:
      draw the chunk id, process the chunk's triples, record the chunk.
      (The source stores the record before the triples and fills
      `entity_ids` in place; the finished record is the same.) */
  function StepChunk(st: State, c: Chunk, idx: nat, uuid: IdSource, answer: Answer): (r: Result<State, ExtractError>)
    requires StateOk(st)
    ensures r.Success? ==> StateOk(r.value)
  {
    var chunkId := uuid(st.names.used);
    match RunTriples(ChunkStart(st), answer(idx), c.source, uuid)
    case Failure(e) => Failure(e)
    case Success(w) =>
      Success(State(w.names, w.relationships, Set(st.mapping, chunkId, ChunkRecord(c.text, c.source, idx, w.entityIds))))
  }

  /** The chunks `cs`, which sit at positions `idx ..` of the chunk list. */
  function RunChunks(st: State, cs: seq<Chunk>, idx: nat, uuid: IdSource, answer: Answer): (r: Result<State, ExtractError>)
    requires StateOk(st)
    ensures r.Success? ==> StateOk(r.value)
    decreases |cs|
  {
    if cs == [] then Success(st)
    else
      match StepChunk(st, cs[0], idx, uuid, answer)
      case Failure(e) => Failure(e)
      case Success(st1) => RunChunks(st1, cs[1..], idx + 1, uuid, answer)
  }

  function InitialState(): (st: State)
    ensures StateOk(st)
  {
    State(Names(Empty(), 0), [], Empty())
  }

  /** `extract_graph_components(raw_text)` */
  function ExtractGraphComponents(raw: RawText, uuid: IdSource, answer: Answer): Result<Graph, ExtractError> {
    match Normalise(raw)
    case Failure(e) => Failure(e)
    case Success(cs) =>
      match RunChunks(InitialState(), cs, 0, uuid, answer)
      case Failure(e) => Failure(e)
      case Success(st) => Success(Graph(st.names.nodes, st.relationships, st.mapping))
  }

  // ------------------------------------------------------------------ lookups are stable

  lemma {:induction false} IdsOfStable(n: Dict<string, Id>, n': Dict<string, Id>, ts: seq<Triple>)
    requires Extends(n, n') && Grounded(n, ts)
    ensures Grounded(n', ts)
    ensures IdsOf(n, ts) == IdsOf(n', ts)
    decreases |ts|
  {
    if ts != [] {
      IdsOfStable(n, n', ts[1..]);
    }
  }

  lemma {:induction false} EdgesOfStable(n: Dict<string, Id>, n': Dict<string, Id>, ts: seq<Triple>, source: Option<string>)
    requires Extends(n, n') && Grounded(n, ts)
    ensures Grounded(n', ts)
    ensures EdgesOf(n, ts, source) == EdgesOf(n', ts, source)
    decreases |ts|
  {
    if ts != [] {
      EdgesOfStable(n, n', ts[1..], source);
    }
  }

  lemma {:induction false} AllEdgesStable(n: Dict<string, Id>, n': Dict<string, Id>, cs: seq<Chunk>, idx: nat, answer: Answer)
    requires Extends(n, n') && ChunksGrounded(n, idx, |cs|, answer)
    ensures ChunksGrounded(n', idx, |cs|, answer)
    ensures AllEdges(n, cs, idx, answer) == AllEdges(n', cs, idx, answer)
    decreases |cs|
  {
    if cs != [] {
      EdgesOfStable(n, n', answer(idx), cs[0].source);
      AllEdgesStable(n, n', cs[1..], idx + 1, answer);
    }
  }

  // ------------------------------------------------------------------ one triple, one chunk

  /** The two registrations a triple performs, as `StepTriple` does them. */
  lemma StepTripleNames(w: Work, t: Triple, uuid: IdSource) returns (n1: Names, n2: Names)
    requires NamesOk(w.names)
    ensures n1 == Register(w.names, t.node, uuid) && n2 == Register(n1, t.targetNode, uuid)
    ensures NamesOk(n2)
    ensures Extends(w.names.nodes, n2.nodes)
    ensures Grounded(n2.nodes, [t]) <==> !Bad(t)
    ensures t.node != "" ==> t.node in n1.nodes.m && n1.nodes.m[t.node] == n2.nodes.m[t.node]
    ensures t.node in n2.nodes.m <==> t.node != ""
    ensures forall x | x in n2.nodes.m :: x in w.names.nodes.m || x in MentionedIn(t)
    ensures w.names.used <= n2.used
  {
    n1 := Register(w.names, t.node, uuid);
    n2 := Register(n1, t.targetNode, uuid);
    ExtendsTrans(w.names.nodes, n1.nodes, n2.nodes);
    assert [t][0] == t;
    if Grounded(n2.nodes, [t]) {
      assert !Bad([t][0]);
    }
  }

  /** A triple fails exactly when it is `Bad`, with a `KeyError` on `''`. */
  lemma StepTripleFails(w: Work, t: Triple, source: Option<string>, uuid: IdSource)
    requires NamesOk(w.names)
    ensures StepTriple(w, t, source, uuid).Failure? <==> Bad(t)
    ensures Bad(t) ==> StepTriple(w, t, source, uuid) == Failure(UnknownNode(""))
  {
    var n1, n2 := StepTripleNames(w, t, uuid);
  }

  lemma StepTripleGrows(w: Work, t: Triple, source: Option<string>, uuid: IdSource) returns (w1: Work)
    requires NamesOk(w.names) && !Bad(t)
    ensures StepTriple(w, t, source, uuid) == Success(w1)
    ensures NamesOk(w1.names)
    ensures Extends(w.names.nodes, w1.names.nodes)
    ensures Grounded(w1.names.nodes, [t])
    ensures w.names.used <= w1.names.used
    ensures forall x | x in w1.names.nodes.m :: x in w.names.nodes.m || x in MentionedIn(t)
  {
    var n1, n2 := StepTripleNames(w, t, uuid);
    StepTripleShape(w, t, source, uuid);
    w1 := StepTriple(w, t, source, uuid).value;
    assert w1.names == n2;
  }

  /** A triple appends the ids of the names it mentions, looked up in the
      table it leaves behind. */
  lemma IdsOfOne(n: Dict<string, Id>, t: Triple)
    requires t.node != "" ==> t.node in n.m
    requires t.targetNode != "" ==> t.targetNode in n.m
    requires !Bad(t)
    ensures Grounded(n, [t])
    ensures IdsOf(n, [t]) == IdFor(n, t.node) + IdFor(n, t.targetNode)
  {
    assert [t][1..] == [];
  }

  /** What a successful step leaves behind, spelled out. */
  lemma StepTripleShape(w: Work, t: Triple, source: Option<string>, uuid: IdSource)
    requires NamesOk(w.names) && !Bad(t)
    ensures var n1 := Register(w.names, t.node, uuid);
      var n2 := Register(n1, t.targetNode, uuid);
      && StepTriple(w, t, source, uuid).Success?
      && StepTriple(w, t, source, uuid).value.names == n2
      && StepTriple(w, t, source, uuid).value.entityIds == w.entityIds + IdFor(n1.nodes, t.node) + IdFor(n2.nodes, t.targetNode)
  {
    var n1, n2 := StepTripleNames(w, t, uuid);
  }

  lemma StepTripleIds(w: Work, t: Triple, source: Option<string>, uuid: IdSource)
    requires NamesOk(w.names) && !Bad(t)
    ensures StepTriple(w, t, source, uuid).Success?
    ensures Grounded(StepTriple(w, t, source, uuid).value.names.nodes, [t])
    ensures var w1 := StepTriple(w, t, source, uuid).value;
      w1.entityIds == w.entityIds + IdsOf(w1.names.nodes, [t])
  {
    var n1 := Register(w.names, t.node, uuid);
    var n2 := Register(n1, t.targetNode, uuid);
    StepTripleShape(w, t, source, uuid);
    TripleIds(w, t, uuid, n1, n2);
    AppendAssoc(w.entityIds, IdFor(n1.nodes, t.node), IdFor(n2.nodes, t.targetNode));
  }

  /** The ids a triple appends, registration by registration, are its ids
      in the table it leaves behind. */
  lemma TripleIds(w: Work, t: Triple, uuid: IdSource, n1: Names, n2: Names)
    requires NamesOk(w.names) && !Bad(t)
    requires n1 == Register(w.names, t.node, uuid) && n2 == Register(n1, t.targetNode, uuid)
    ensures Grounded(n2.nodes, [t])
    ensures IdFor(n1.nodes, t.node) + IdFor(n2.nodes, t.targetNode) == IdsOf(n2.nodes, [t])
  {
    var a, b := StepTripleNames(w, t, uuid);
    assert IdFor(n1.nodes, t.node) == IdFor(n2.nodes, t.node);
    IdsOfOne(n2.nodes, t);
  }

  /** A triple appends its edge, if it has one, looked up in the table it
      leaves behind. */
  lemma StepTripleEdges(w: Work, t: Triple, source: Option<string>, uuid: IdSource)
    requires NamesOk(w.names) && !Bad(t)
    ensures StepTriple(w, t, source, uuid).Success?
    ensures Grounded(StepTriple(w, t, source, uuid).value.names.nodes, [t])
    ensures var w1 := StepTriple(w, t, source, uuid).value;
      w1.relationships == w.relationships + EdgesOf(w1.names.nodes, [t], source)
  {
    var n1, n2 := StepTripleNames(w, t, uuid);
    StepTripleShape(w, t, source, uuid);
    var w1 := StepTriple(w, t, source, uuid).value;
    assert w1.names == n2;
    EdgesOfOne(n2.nodes, t, source);
  }

  /** A single triple contributes its edge, if it has one. */
  lemma EdgesOfOne(n: Dict<string, Id>, t: Triple, source: Option<string>)
    requires Grounded(n, [t])
    ensures !Bad(t) && (t.node != "" ==> t.node in n.m) && (t.targetNode != "" ==> t.targetNode in n.m)
    ensures EdgesOf(n, [t], source) ==
      if IsEdge(t) then [Relationship(n.m[t.node], n.m[t.targetNode], t.relationship, source)] else []
  {
    assert [t][0] == t && [t][1..] == [];
  }

  lemma GroundedSplit(n: Dict<string, Id>, ts: seq<Triple>)
    requires ts != []
    ensures Grounded(n, ts) <==> Grounded(n, [ts[0]]) && Grounded(n, ts[1..])
  {
    assert [ts[0]][0] == ts[0];
    assert forall i | 1 <= i < |ts| :: ts[i] == ts[1..][i - 1];
  }

  lemma IdsOfSplit(n: Dict<string, Id>, ts: seq<Triple>, source: Option<string>)
    requires ts != [] && Grounded(n, ts)
    ensures Grounded(n, [ts[0]]) && Grounded(n, ts[1..])
    ensures IdsOf(n, ts) == IdsOf(n, [ts[0]]) + IdsOf(n, ts[1..])
    ensures EdgesOf(n, ts, source) == EdgesOf(n, [ts[0]], source) + EdgesOf(n, ts[1..], source)
  {
    GroundedSplit(n, ts);
    assert [ts[0]][1..] == [];
  }

  /** A list holds a `Bad` triple exactly when its head is one or its tail
      holds one. */
  lemma AnyBadCons(ts: seq<Triple>)
    requires ts != []
    ensures (exists i :: 0 <= i < |ts| && Bad(ts[i])) <==> Bad(ts[0]) || exists i :: 0 <= i < |ts[1..]| && Bad(ts[1..][i])
  {
    if exists i :: 0 <= i < |ts| && Bad(ts[i]) {
      var i :| 0 <= i < |ts| && Bad(ts[i]);
      if i > 0 {
        assert Bad(ts[1..][i - 1]);
      }
    }
    if exists i :: 0 <= i < |ts[1..]| && Bad(ts[1..][i]) {
      var i :| 0 <= i < |ts[1..]| && Bad(ts[1..][i]);
      assert Bad(ts[i + 1]);
    }
  }

  lemma {:induction false} RunTriplesFails(w: Work, ts: seq<Triple>, source: Option<string>, uuid: IdSource)
    requires NamesOk(w.names)
    ensures RunTriples(w, ts, source, uuid).Failure? <==> exists i :: 0 <= i < |ts| && Bad(ts[i])
    ensures RunTriples(w, ts, source, uuid).Failure? ==> RunTriples(w, ts, source, uuid).error == UnknownNode("")
    decreases |ts|
  {
    if ts != [] {
      StepTripleFails(w, ts[0], source, uuid);
      AnyBadCons(ts);
      if !Bad(ts[0]) {
        var w1 := StepTriple(w, ts[0], source, uuid).value;
        assert RunTriples(w, ts, source, uuid) == RunTriples(w1, ts[1..], source, uuid);
        RunTriplesFails(w1, ts[1..], source, uuid);
      }
    }
  }

  /** Processing a chunk's triples only grows the names table and binds
      every name they mention. */
  lemma {:induction false} RunTriplesGrows(w: Work, ts: seq<Triple>, source: Option<string>, uuid: IdSource)
    requires NamesOk(w.names)
    requires RunTriples(w, ts, source, uuid).Success?
    ensures Extends(w.names.nodes, RunTriples(w, ts, source, uuid).value.names.nodes)
    ensures Grounded(RunTriples(w, ts, source, uuid).value.names.nodes, ts)
    ensures w.names.used <= RunTriples(w, ts, source, uuid).value.names.used
    decreases |ts|
  {
    if ts == [] {
      ExtendsRefl(w.names.nodes);
    } else {
      var t := ts[0];
      StepTripleFails(w, t, source, uuid);
      var w1 := StepTripleGrows(w, t, source, uuid);
      assert RunTriples(w, ts, source, uuid) == RunTriples(w1, ts[1..], source, uuid);
      RunTriplesGrows(w1, ts[1..], source, uuid);
      var n' := RunTriples(w1, ts[1..], source, uuid).value.names.nodes;
      ExtendsTrans(w.names.nodes, w1.names.nodes, n');
      IdsOfStable(w1.names.nodes, n', [t]);
      GroundedSplit(n', ts);
    }
  }

  /** The ids a chunk's triples append to `entity_ids` are `IdsOf` them in
      the final table. */
  lemma {:induction false} RunTriplesIds(w: Work, ts: seq<Triple>, source: Option<string>, uuid: IdSource)
    requires NamesOk(w.names)
    requires RunTriples(w, ts, source, uuid).Success?
    ensures Grounded(RunTriples(w, ts, source, uuid).value.names.nodes, ts)
    ensures var w' := RunTriples(w, ts, source, uuid).value;
      w'.entityIds == w.entityIds + IdsOf(w'.names.nodes, ts)
    decreases |ts|
  {
    RunTriplesGrows(w, ts, source, uuid);
    if ts != [] {
      var t := ts[0];
      assert !Bad(t) by { StepTripleFails(w, t, source, uuid); }
      var w1 := StepTriple(w, t, source, uuid).value;
      assert NamesOk(w1.names) && StepTriple(w, t, source, uuid) == Success(w1) by {
        var _ := StepTripleGrows(w, t, source, uuid);
      }
      var rest := RunTriples(w1, ts[1..], source, uuid);
      assert RunTriples(w, ts, source, uuid) == rest;
      var n1 := w1.names.nodes;
      var n' := rest.value.names.nodes;
      assert Grounded(n1, [t]) && w1.entityIds == w.entityIds + IdsOf(n1, [t]) by {
        StepTripleIds(w, t, source, uuid);
      }
      assert Grounded(n', ts[1..]) && rest.value.entityIds == w1.entityIds + IdsOf(n', ts[1..]) by {
        RunTriplesIds(w1, ts[1..], source, uuid);
      }
      assert Grounded(n', [t]) && IdsOf(n1, [t]) == IdsOf(n', [t]) by {
        RunTriplesGrows(w1, ts[1..], source, uuid);
        IdsOfStable(n1, n', [t]);
      }
      assert Grounded(n', ts) && IdsOf(n', ts) == IdsOf(n', [t]) + IdsOf(n', ts[1..]) by {
        GroundedSplit(n', ts);
        IdsOfSplit(n', ts, source);
      }
      AppendAssoc(w.entityIds, IdsOf(n', [t]), IdsOf(n', ts[1..]));
    }
  }

  /** The edges a chunk's triples append to `relationships` are `EdgesOf`
      them in the final table. */
  lemma {:induction false} RunTriplesEdges(w: Work, ts: seq<Triple>, source: Option<string>, uuid: IdSource)
    requires NamesOk(w.names)
    requires RunTriples(w, ts, source, uuid).Success?
    ensures Grounded(RunTriples(w, ts, source, uuid).value.names.nodes, ts)
    ensures var w' := RunTriples(w, ts, source, uuid).value;
      w'.relationships == w.relationships + EdgesOf(w'.names.nodes, ts, source)
    decreases |ts|
  {
    RunTriplesGrows(w, ts, source, uuid);
    if ts != [] {
      var t := ts[0];
      assert !Bad(t) by { StepTripleFails(w, t, source, uuid); }
      var w1 := StepTriple(w, t, source, uuid).value;
      assert NamesOk(w1.names) && StepTriple(w, t, source, uuid) == Success(w1) by {
        var _ := StepTripleGrows(w, t, source, uuid);
      }
      var rest := RunTriples(w1, ts[1..], source, uuid);
      assert RunTriples(w, ts, source, uuid) == rest;
      var n1 := w1.names.nodes;
      var n' := rest.value.names.nodes;
      assert Grounded(n1, [t]) && w1.relationships == w.relationships + EdgesOf(n1, [t], source) by {
        StepTripleEdges(w, t, source, uuid);
      }
      assert Grounded(n', ts[1..]) && rest.value.relationships == w1.relationships + EdgesOf(n', ts[1..], source) by {
        RunTriplesEdges(w1, ts[1..], source, uuid);
      }
      assert Grounded(n', [t]) && EdgesOf(n1, [t], source) == EdgesOf(n', [t], source) by {
        RunTriplesGrows(w1, ts[1..], source, uuid);
        EdgesOfStable(n1, n', [t], source);
      }
      assert Grounded(n', ts) && EdgesOf(n', ts, source) == EdgesOf(n', [t], source) + EdgesOf(n', ts[1..], source) by {
        GroundedSplit(n', ts);
        IdsOfSplit(n', ts, source);
      }
      AppendAssoc(w.relationships, EdgesOf(n', [t], source), EdgesOf(n', ts[1..], source));
    }
  }

  /** Every name the table gains is one the triples mention. */
  lemma {:induction false} RunTriplesKeys(w: Work, ts: seq<Triple>, source: Option<string>, uuid: IdSource)
    requires NamesOk(w.names)
    requires RunTriples(w, ts, source, uuid).Success?
    ensures forall x | x in RunTriples(w, ts, source, uuid).value.names.nodes.m :: x in w.names.nodes.m || x in Mentioned(ts)
    decreases |ts|
  {
    if ts != [] {
      var t := ts[0];
      StepTripleFails(w, t, source, uuid);
      var w1 := StepTripleGrows(w, t, source, uuid);
      assert RunTriples(w, ts, source, uuid) == RunTriples(w1, ts[1..], source, uuid);
      RunTriplesKeys(w1, ts[1..], source, uuid);
      assert Mentioned(ts) == MentionedIn(t) + Mentioned(ts[1..]);
    }
  }
}
