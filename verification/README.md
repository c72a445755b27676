# Knowledge_Graph_Rag core, modelled in Dafny

This project models the pure logic under the Hybrid RAG pipeline of
Knowledge_Graph_Rag and proves properties of it. The pipeline ingests
documents, extracts a knowledge graph through an LLM, stores chunk
embeddings in Qdrant and entities and relationships in Neo4j, and at query
time joins vector hits back to graph neighbourhoods. The parts modelled are:

- **Graph extraction** (`extract_graph_components`). The raw input is
  normalised into a list of chunks. Each chunk gets a fresh id. Entity names
  go into an insertion-ordered name→id table. Each chunk records the ids of
  the names its triples mention. An edge is emitted for every triple with a
  target and a relationship. The LLM is an input: `answer(k)` is the list of
  `(node, relationship, target_node)` triples for the k-th chunk.
  `uuid.uuid4()` is an input too: `uuid(n)` is the n-th id drawn. Where it
  matters, the ids are assumed pairwise distinct (`Injective`).
  (`extraction.dfy`, `extraction_facts.dfy`, `extraction_theorems.dfy`)
- **Qdrant point construction** (`ingest_to_qdrant`). Points are built
  against `list(chunk_node_mapping.keys())` with one global counter.
  `zip` truncates each file to its shorter list. An out-of-range key lookup
  fails. (`qdrant_points.dfy`)
- **Cross-store alignment**. When the embedded files list the same chunks
  in the same order as the extractor's input, the k-th point carries the
  k-th mapping key, and that key's chunk record has `chunk_index` k. The
  Qdrant payload's `chunk_index` is per file, so the two indices agree
  exactly in the files that start at global position 0. (`alignment.dfy`)
- **Neo4j writes** in both ingesters. The relationship-type sanitiser and
  the sequence of commands they issue are modelled. Entities come first,
  then chunks with their MENTIONS edges (one per distinct entity id), then
  relationships. (`rel_type.dfy`, `graph_writes.dfy`)
- **Retrieval string helpers**: `parse_retriever_results` with Python
  `str.find` semantics, including the -1 case; the filter and dedup of
  `fetch_graph_context`; and `format_context`. (`retrieval.dfy`)
- **Agent output parsing and the chat guard**: `parse_agent_response`
  and `chat`. The JSON decoder is an abstract partial function.
  (`agent_api.dfy`)
- **File-name handling**:
  - the upload route's `allowed_file`, listing and validation order (`upload.dfy`);
  - the reader's suffix bucketing (`file_reader.dfy`).

Shared helpers:

- `wrappers.dfy`: `Option`, `Result`.
- `seqs.dfy`: duplicate-freedom, first-occurrence dedup, filter-map.
- `ordered_dict.dfy`: Python's insertion-ordered `dict`.
- `pystr.dfy`: Python's `find`, `rfind`, slicing, `lower`, `strip`,
  `join`, `split`, `str(n)`, and string ordering.

Two details of the code worth knowing:

- A chunk's `source_file` is optional (`None` for plain-string input), not
  always a string.
- The chunk index stored in Qdrant restarts at 0 in every file, unlike the
  graph store's.

## Model

| member | source | states |
|---|---|---|
| Extraction.ExtractGraphComponents | ingestion/orchestration.py:66-146 | `extract_graph_components`; its properties are stated by ExtractionFails, ExtractionNodes, ExtractionRelationships, ExtractionMappingSize, ExtractionChunkMapping and ExtractionEntityIds |
| QdrantPoints.IngestToQdrant | rag_handler/qdrant_orchestrator.py:69-106 | `ingest_to_qdrant`; its properties are stated by IngestSucceeds, IngestPointAt and IngestIdsMatch |
| RelType.Sanitize | services/rag_api/src/storage/neo4j_client.py:61-70 | the relationship-type sanitiser; its properties are stated by SanitizeIsLabel, SanitizeFallsBack, SanitizeIdempotent, SanitizeFixpoint and SanitizeOnePass |
| GraphWrites.IngestToNeo4j | services/rag_api/src/storage/neo4j_client.py:15-86 | `ingest_to_neo4j` of the newer ingester; its properties are stated by IngestPhases, IngestEntities, IngestChunks, IngestMentions and IngestEdges |
| GraphWrites.LegacyIngestToNeo4j | rag_handler/neo4j_orchestrator.py:13-51 | `ingest_to_neo4j` of the older ingester; LegacyIsWithoutChunks relates it to the newer one |
| Retrieval.ExtractField | graph_agents/tools/retrieve_answer.py:53-60 | the marker-and-quote extraction; its properties are stated by ExtractFieldAfter, ExtractFieldMissing and ParsedHaveNoQuote |
| Retrieval.FetchGraphContext | graph_agents/tools/retrieve_answer.py:70-90 | `fetch_graph_context` given the query's rows; its properties are stated by FetchGraphContextSpec |
| Retrieval.FormatContext | graph_agents/tools/retrieve_answer.py:93-106 | `format_context`; its properties are stated by FormatContextSections, FormatContextHasChunk, ChunksInOrder, FormatContextGraphSection, FormatContextGraphLines and ChunkBlockNumber |
| AgentApi.ParseAgentResponse | services/rag_api/src/main.py:97-125 | `parse_agent_response`; its properties are stated by BraceSpanSpec, ParseDecoded, ParseFallsBack, ParseNoBrace and ParseAlwaysSucceeds |
| AgentApi.Chat | services/rag_api/src/main.py:139-155 | the `chat` endpoint; its properties are stated by ChatRejectsBlank and ChatOutcomes |
| Upload.AllowedFile | services/web_ui/src/routes/upload.py:21-24 | `allowed_file`; its properties are stated by AllowedNeedsDot, AllowedFileSplit, AllowedCaseInsensitive and FileReader.ClassifyFoldedAgrees |
| Upload.GetUploadedFiles | services/web_ui/src/routes/upload.py:27-39 | `get_uploaded_files`; its properties are stated by GetUploadedFilesSpec, VisibleSpec and VisibleSound |
| Upload.UploadFile | services/web_ui/src/routes/upload.py:50-77 | `upload_file`; its properties are stated by UploadValidationOrder and FileReader.UploadSavesReadable |
| FileReader.ReadFiles | ingestion/file_reader.py:22-49 | `read_files`; its properties are stated by ReadFilesWith, ClassifySpec, BucketsPartition and UploadedButSkipped |
| Extraction.NormaliseScalar | ingestion/orchestration.py:85-97 | a plain string becomes exactly one chunk with no source; anything that is neither a string nor a list fails with the `ValueError` case |
| Extraction.NormaliseEntries | ingestion/orchestration.py:87-95 | the i-th chunk of a `{"chunks": …}` entry sits at the entry's offset plus i, carrying the entry's `file`; any other entry is one chunk with no source |
| Extraction.NormaliseLength | ingestion/orchestration.py:87-95 | the number of normalised chunks is the sum of what each entry contributes |
| Extraction.FlattenAppend | ingestion/orchestration.py:88-95 | normalising a concatenation of entries concatenates the chunk lists, so entry order is kept |
| Extraction.Register | ingestion/orchestration.py:120-128 | a non-empty name is bound after registration; the table only grows and existing bindings never change; nothing but the registered name is added |
| Extraction.StepTripleNames | ingestion/orchestration.py:115-134 | after one triple, node and target are bound exactly when non-empty; the node's id is unchanged by the target's registration; the triple is grounded exactly when it is not the empty-node edge case |
| Extraction.StepTripleFails | ingestion/orchestration.py:120-144 | one triple fails exactly when its node is empty but target and relationship are not, and then with the lookup error on the empty name |
| Extraction.StepTripleIds | ingestion/orchestration.py:123-134 | a triple appends the node's id, then the target's, each only when that name is non-empty |
| Extraction.StepTripleEdges | ingestion/orchestration.py:136-144 | a triple appends one edge exactly when target and relationship are non-empty, with the ids of node and target, the type and the chunk's source |
| Extraction.RunTriplesFails | ingestion/orchestration.py:115-144 | a chunk's triples fail exactly when one of them is the empty-node edge case |
| Extraction.RunTriplesGrows | ingestion/orchestration.py:115-128 | processing a chunk's triples only extends the name table and grounds every triple |
| Extraction.RunTriplesIds | ingestion/orchestration.py:123-134 | a chunk's entity ids are the ids of its triples' non-empty names, in triple order |
| Extraction.RunTriplesEdges | ingestion/orchestration.py:136-144 | a chunk's edges are appended in triple order, one per edge-bearing triple |
| Extraction.RunTriplesKeys | ingestion/orchestration.py:120-128 | every name in the table was there before or is mentioned by the chunk's triples |
| ExtractionFacts.IdsOfValues | ingestion/orchestration.py:124-134 | every recorded entity id is a value of the name table |
| ExtractionFacts.IdsOfKeepsDuplicates | ingestion/orchestration.py:124-134 | a triple whose node and target coincide records the same id twice; the list is not deduplicated |
| ExtractionFacts.EdgesOfLength | ingestion/orchestration.py:136-144 | a chunk yields at most one edge per triple |
| ExtractionFacts.EdgesOfSound | ingestion/orchestration.py:136-144 | every edge comes from an edge-bearing triple, with that triple's ids, type and source |
| ExtractionFacts.EdgesOfComplete | ingestion/orchestration.py:136-144 | every edge-bearing triple yields its edge |
| ExtractionFacts.StepChunkFails | ingestion/orchestration.py:99-144 | a chunk fails exactly when one of its triples is the empty-node edge case, with the lookup error |
| ExtractionFacts.StepChunkRecord | ingestion/orchestration.py:99-106 | a chunk adds the record of its text, source, index and entity ids under the freshly drawn id |
| ExtractionFacts.RunChunksFails | ingestion/orchestration.py:99-144 | the chunk loop fails exactly when some chunk has a bad triple |
| ExtractionFacts.RunChunksGrows | ingestion/orchestration.py:99-128 | the chunk loop only extends the name table, grounds every chunk's triples, and draws at least one id per chunk |
| ExtractionFacts.RunChunksEdges | ingestion/orchestration.py:99-144 | the relationships are the edges of all chunks, in chunk order, looked up in the final table |
| ExtractionFacts.RunChunksKeys | ingestion/orchestration.py:115-128 | every name in the final table was there before or is mentioned by some chunk |
| ExtractionFacts.RunChunksMappingKeys | ingestion/orchestration.py:99-106 | with distinct ids, the mapping gains exactly one new key per chunk and keeps the old ones |
| ExtractionFacts.RunChunksRecord | ingestion/orchestration.py:99-134 | with distinct ids, the key at each chunk's position holds that chunk's text, source, global index and entity ids |
| ExtractionTheorems.AllEdgesLength | ingestion/orchestration.py:115-144 | over any run of chunks there are at most as many relationships as triples |
| ExtractionTheorems.ExtractionFails | ingestion/orchestration.py:85-146 | unsupported input raises the `ValueError` case; otherwise extraction fails exactly when some triple has an empty node with a target and a relationship, and then with the lookup error on "" |
| ExtractionTheorems.ExtractionNodes | ingestion/orchestration.py:115-128 | the returned table is valid, never binds "", and binds exactly the names the triples mention |
| ExtractionTheorems.ExtractionRelationships | ingestion/orchestration.py:136-146 | the returned relationships are all edges of all chunks in order, and number at most the triples |
| ExtractionTheorems.ExtractionMappingSize | ingestion/orchestration.py:99-106 | with distinct ids, the chunk mapping has exactly one key per normalised chunk |
| ExtractionTheorems.ExtractionChunkMapping | ingestion/orchestration.py:99-134 | with distinct ids, the k-th key's record has the k-th chunk's text and source, chunk_index k, and the ids of the names its triples mention |
| ExtractionTheorems.ExtractionEntityIds | ingestion/orchestration.py:124-134 | every id recorded for a chunk is an id in the returned name table |
| QdrantPoints.NewOrchestrator | rag_handler/qdrant_orchestrator.py:24-38 | the collection name is always "QdrantRagCollection" |
| QdrantPoints.CollectionNameIgnored | rag_handler/qdrant_orchestrator.py:27-38 | the collection_name argument has no effect on the orchestrator |
| QdrantPoints.FilePointsSpec | rag_handler/qdrant_orchestrator.py:90-105 | a file yields min(#chunks, #embeddings) points, the k-th with the key at counter+k, its chunk, its vector and chunk_index k, or fails when the keys run out |
| QdrantPoints.PointsFromSucceeds | rag_handler/qdrant_orchestrator.py:85-105 | point building succeeds exactly when the keys cover all pairs, and then yields one point per pair |
| QdrantPoints.IngestSucceeds | rag_handler/qdrant_orchestrator.py:80-105 | ingestion succeeds exactly when the pairs fit in the mapping keys; otherwise it is an IndexError at position len(keys); points go to the named collection |
| QdrantPoints.IngestPointAt | rag_handler/qdrant_orchestrator.py:83-105 | the point for pair i of file j sits at global position k = offset(j)+i and has id keys[k], payload id keys[k], the chunk, the vector, the file's name and chunk_index i |
| QdrantPoints.IngestIdsMatch | rag_handler/qdrant_orchestrator.py:91-98 | every point's id equals its payload id and the mapping key at its position |
| QdrantPoints.PairOf | rag_handler/qdrant_orchestrator.py:83-105 | every global position below the number of pairs belongs to some file and pair index |
| QdrantPoints.PairOfUnique | rag_handler/qdrant_orchestrator.py:83-105 | no global position belongs to two different file and pair indices, since the counter only moves forward |
| Alignment.MirrorTotal | rag_handler/qdrant_orchestrator.py:85-90 | when the embedded files mirror the extractor input, the number of pairs equals the number of chunks |
| Alignment.AlignedIds | rag_handler/qdrant_orchestrator.py:80-105 | with mirrored input and distinct ids, the k-th point's id is the mapping key whose record has chunk_index k, the same text and the same source file |
| Alignment.ChunkIndexDiverges | rag_handler/qdrant_orchestrator.py:90-101 | the Qdrant chunk_index equals the graph chunk_index exactly when the file is at offset 0 |
| RelType.UnderscoreAt | services/rag_api/src/storage/neo4j_client.py:61-63 | spaces, hyphens and dots become underscores and nothing else changes |
| RelType.KeepLabelCharsSpec | services/rag_api/src/storage/neo4j_client.py:64-66 | the filter keeps exactly the alphanumeric and underscore characters |
| RelType.SanitizeIsLabel | services/rag_api/src/storage/neo4j_client.py:61-70 | the label is never empty and has only alphanumerics and underscores |
| RelType.SanitizeFallsBack | services/rag_api/src/storage/neo4j_client.py:67-70 | the filtered text is empty, so "RELATES_TO" is used, exactly when no character of the type is a letter, digit, underscore, space, hyphen or dot |
| RelType.SanitizeIdempotent | services/rag_api/src/storage/neo4j_client.py:61-70 | sanitising twice equals sanitising once |
| RelType.SanitizeFixpoint | services/rag_api/src/storage/neo4j_client.py:61-70 | the sanitiser leaves a string unchanged exactly when it is already a valid label |
| RelType.SanitizeKeepsSeparators | services/rag_api/src/storage/neo4j_client.py:61-66 | when every character survives, the label has the same length, with `_` exactly where a separator was |
| RelType.SanitizeOnePass | rag_handler/neo4j_orchestrator.py:34-37 | the three replaces plus the filter equal an independent one-pass character map with the same fallback |
| GraphWrites.EntityCommandsSpec | services/rag_api/src/storage/neo4j_client.py:27-30 | one Entity create per table entry, in table order, with its id and name |
| GraphWrites.MentionCommandsSpec | services/rag_api/src/storage/neo4j_client.py:43-52 | a chunk's MENTIONS commands have no duplicates and cover exactly its entity ids |
| GraphWrites.ChunkCommandsChunks | services/rag_api/src/storage/neo4j_client.py:33-41 | one Chunk create per mapping key, in mapping order |
| GraphWrites.ChunkCommandsMentions | services/rag_api/src/storage/neo4j_client.py:33-52 | the MENTIONS of a chunk are the deduplicated entity ids of its record, and none for an unknown chunk |
| GraphWrites.EdgeCommandsSpec | services/rag_api/src/storage/neo4j_client.py:57-84 | one edge command per relationship, in order, with the sanitised label, the endpoints, the original type and the source file |
| GraphWrites.IngestPhases | services/rag_api/src/storage/neo4j_client.py:25-86 | `nodes` is returned unchanged, and every entity command precedes every chunk command, which precede every edge command |
| GraphWrites.IngestEntities | services/rag_api/src/storage/neo4j_client.py:27-30 | the Entity creates are exactly the table's entries, in order |
| GraphWrites.IngestChunks | services/rag_api/src/storage/neo4j_client.py:32-41 | Chunk creates are issued, one per key and in order, only when a non-empty mapping is given |
| GraphWrites.IngestChunkNodes | services/rag_api/src/storage/neo4j_client.py:32-41 | with a non-empty mapping the i-th Chunk create of the session carries the i-th key and that record's `text`, `source_file` and `chunk_index`; otherwise there is none |
| GraphWrites.ChunkCommandsNodes | services/rag_api/src/storage/neo4j_client.py:33-41 | the i-th Chunk create of the chunk phase carries the i-th key and that record's text, source file and chunk index |
| GraphWrites.ChunkEntryNode | services/rag_api/src/storage/neo4j_client.py:35-41 | one mapping entry issues exactly one Chunk create, carrying its record's text, source file and chunk index |
| GraphWrites.IngestMentions | services/rag_api/src/storage/neo4j_client.py:43-52 | for each chunk, the MENTIONS commands have no duplicates and cover exactly its entity ids |
| GraphWrites.IngestEdges | services/rag_api/src/storage/neo4j_client.py:57-84 | the edge commands match the relationships one to one, in order, with the original type kept |
| GraphWrites.LegacyIsWithoutChunks | rag_handler/neo4j_orchestrator.py:13-51 | the older ingester issues what the newer one issues when there is no chunk mapping, and also returns `nodes` |
| Retrieval.ParseRetrieverResults | graph_agents/tools/retrieve_answer.py:44-67 | `chunks` and `chunk_ids` have one entry per item, in item order, each extracted with its marker |
| Retrieval.ExtractFieldAfter | graph_agents/tools/retrieve_answer.py:53-60 | a quote-free value written right after the first occurrence of its marker and closed by a quote is extracted exactly |
| Retrieval.ExtractFieldMissing | graph_agents/tools/retrieve_answer.py:53-55 | with the marker and the quote absent, `find`'s -1 makes the slice start at len(marker)-1 and end before the last character |
| Retrieval.ParsedHaveNoQuote | graph_agents/tools/retrieve_answer.py:53-60 | extracted texts and ids never contain a single quote |
| Retrieval.FetchGraphContextSpec | graph_agents/tools/retrieve_answer.py:70-90 | no chunk ids gives []; otherwise the result has no duplicates and holds exactly the strings of rows with a truthy rel and related node |
| Retrieval.FormatContextSections | graph_agents/tools/retrieve_answer.py:93-106 | the context always starts with the chunk header and ends with the graph header and the relationships, one per line |
| Retrieval.GraphSectionSplits | graph_agents/tools/retrieve_answer.py:98 | relationships without line breaks are recovered by splitting the graph section on line breaks |
| Retrieval.FormatContextHasChunk | graph_agents/tools/retrieve_answer.py:95-106 | the block "Chunk {k+1}:\n" + chunks[k] of every chunk appears whole in the context, after the chunk header and before the graph header |
| Retrieval.ChunksInOrder | graph_agents/tools/retrieve_answer.py:95-97 | the chunk blocks appear in index order, each ending at least a blank line before the next starts |
| Retrieval.FormatContextGraphSection | graph_agents/tools/retrieve_answer.py:98-106 | the context ends with the graph header line, the relationships joined by line breaks, and one closing line break |
| Retrieval.FormatContextGraphLines | graph_agents/tools/retrieve_answer.py:98-106 | relationships without line breaks are read back from the context's graph section by splitting it on line breaks |
| PyStr.JoinAt | graph_agents/tools/retrieve_answer.py:95-98 | `sep.join(xs)` holds every element whole at its offset: the earlier elements, each followed by one separator |
| PyStr.JoinOffsetGrows | graph_agents/tools/retrieve_answer.py:95-98 | in `sep.join(xs)` each element and a separator end before any later element starts |
| Retrieval.ChunkBlockNumber | graph_agents/tools/retrieve_answer.py:95-97 | the k-th block is "Chunk {k+1}:\n" followed by the k-th text, and its number reads back as k+1 |
| AgentApi.BraceSpanSpec | services/rag_api/src/main.py:102-106 | a candidate exists exactly when some `{` has a `}` after it, and it runs from the first `{` to the last `}` inclusive |
| AgentApi.BraceSpanEmbedded | services/rag_api/src/main.py:102-106 | an object between a prefix without `{` and a suffix without `}` is cut out exactly |
| AgentApi.ParseDecoded | services/rag_api/src/main.py:105-115 | when the candidate decodes, answer, sources and both counts come from the decoded object |
| AgentApi.ParseFallsBack | services/rag_api/src/main.py:116-125 | without a candidate, or when it does not decode, the answer is the whole output with no sources and zero counts |
| AgentApi.ParseNoBrace | services/rag_api/src/main.py:102-125 | output without `{` is returned as the answer with no sources |
| AgentApi.ParseAlwaysSucceeds | services/rag_api/src/main.py:109-125 | `success` is true on every path |
| AgentApi.ChatRejectsBlank | services/rag_api/src/main.py:143-147 | a message is refused with 400 exactly when it is whitespace only, whatever the agent's state |
| AgentApi.ChatOutcomes | services/rag_api/src/main.py:143-155 | a non-blank message gets 503 without an agent, 500 with the message when the run raises, and a successful parsed reply otherwise |
| Upload.AllowedNeedsDot | services/web_ui/src/routes/upload.py:21-24 | a name without a dot is refused |
| Upload.AllowedFileSplit | services/web_ui/src/routes/upload.py:18-24 | a name is accepted exactly when the text after its last dot, lower-cased, is pdf, txt, md, jpg, jpeg or png |
| Upload.AllowedCaseInsensitive | services/web_ui/src/routes/upload.py:24 | a name is accepted exactly when its lower-case form is |
| Upload.AllowedUpperPdf | services/web_ui/src/routes/upload.py:24 | `report.PDF` is accepted |
| Upload.VisibleSpec | services/web_ui/src/routes/upload.py:27-38 | every regular, non-hidden entry is listed, no listed name starts with a dot, and there are no more rows than entries |
| Upload.VisibleSound | services/web_ui/src/routes/upload.py:27-38 | every listed row comes from a regular, non-hidden entry |
| Upload.SortByNameSpec | services/web_ui/src/routes/upload.py:39 | sorting is a permutation whose names are in order |
| Upload.SortedPairwise | services/web_ui/src/routes/upload.py:39 | in the sorted listing every earlier name is at most every later one |
| Upload.GetUploadedFilesSpec | services/web_ui/src/routes/upload.py:27-39 | the listing is a name-ordered permutation of the visible rows, and empty when the folder is missing |
| Upload.UploadValidationOrder | services/web_ui/src/routes/upload.py:49-70 | missing part, then empty name, then a disallowed extension, each refused with 400; a file is saved, under its secured name, exactly when its name is allowed |
| FileReader.ClassifySpec | ingestion/file_reader.py:33-42 | a name lands in bucket k exactly when it ends in one of k's suffixes, so the elif order never decides |
| FileReader.ClassifySkips | ingestion/file_reader.py:33-42 | a name is skipped exactly when it ends in none of the six suffixes |
| FileReader.ReadFilesWith | ingestion/file_reader.py:43-48 | the result has exactly the keys pdf, text, markdown and image, each holding its bucket |
| FileReader.BucketAppend | ingestion/file_reader.py:30-42 | bucketing a concatenated listing concatenates the buckets, so listing order is kept |
| FileReader.BucketMember | ingestion/file_reader.py:30-42 | each name's path is in the bucket it is classified into |
| FileReader.BucketSound | ingestion/file_reader.py:30-42 | a bucket holds only paths of names classified into it |
| FileReader.BucketsPartition | ingestion/file_reader.py:30-42 | the four buckets and the skipped names together account for every listed name exactly once |
| FileReader.SkippedMember | ingestion/file_reader.py:30-42 | the skipped names are exactly the listed names no bucket claims |
| FileReader.UploadedButSkipped | ingestion/file_reader.py:33-42 | `report.PDF` is accepted by the upload route but lands in no bucket |
| FileReader.ClassifyFoldedAgrees | ingestion/file_reader.py:33-42 | with the case folded, a name is kept exactly when the upload route accepts it |
| FileReader.UploadSavesReadable | services/web_ui/src/routes/upload.py:50-77 | the upload route saves a file exactly when a part was sent whose name the case-folded reader puts in a bucket |
| FileReader.FoldedKeepsUploads | ingestion/file_reader.py:30-42 | with the case folded, every uploaded name of a listing lands in a bucket and is not skipped |

## Left out

- The LLM calls (`completion`, `llm_parser`), the embedding call and the agent runner. They are external services, so their outputs are inputs to the model.
- `uuid.uuid4()`. It is random, so the model takes a supply of ids. Distinctness is a precondition only of the lemmas that need it (`Injective`).
- Qdrant and Neo4j sessions, `upsert`, `create_collection` and Cypher execution. This is network I/O, so only the sequence of issued commands is modelled, and the model does not say what the database does with them.
- `LIMIT 50` and the Cypher query of `fetch_graph_context`. The rows the query returns are an input.
- `json.loads` and pydantic validation of `AgentResponse`. They are an abstract decoder that yields `None` wherever an exception would be caught.
- Flask and FastAPI routing, CORS, the health and root endpoints, `trigger_ingestion`, `delete_file`, the admin routes, the ingest endpoint and the chunker/embedder. These are HTTP plumbing and thin library wrappers.
- `secure_filename`, the file save and the size in the upload response. The first is a parameter; the other two are filesystem I/O.
- `os.path.abspath(os.path.join(folder, name))`. It is a parameter, because path resolution depends on the process's working directory.
- Prompt constants and configuration loading. They are data, not behaviour.
- `str.isalnum` and `str.lower` on non-ASCII characters. They are restricted to ASCII, because Python's Unicode tables are out of scope.
- The upload refusal message lists the allowed extensions in Python `set` iteration order, which is unspecified. The model names the error kind instead of the text.
- Retrieval.FetchGraphContextSpec: states membership and duplicate-freedom but not the order of `list(set(...))`, which Python leaves unspecified. The model uses first-occurrence order.
- GraphWrites.IngestMentions: states that the MENTIONS commands of a chunk are duplicate-free and cover its entity ids, but not their order, because `set` iteration order is unspecified.
- Extraction.Entry: list elements are modelled as strings, or as dicts whose `"chunks"` are strings. The source passes any other element, such as a number or a dict without `"chunks"`, through as chunk text, and iterates any iterable under `"chunks"`, so a string there gives one chunk per character. The callers pass strings.
- Retrieval.ParseRetrieverResults: an item's `content` is modelled as a string. The source's `except Exception: continue` skips an item whose content has no `find`; with string content nothing raises, so no item is skipped. The retriever yields strings.
- Upload.GetUploadedFilesSpec: states the name order and the permutation, but not stability among equal names, which cannot occur within one folder.
- ExtractionTheorems.ExtractionMappingSize: assumes the drawn ids are distinct. Under colliding uuid4 values, later chunks would overwrite earlier keys.
- QdrantPoints.FilePointsSpec: vectors are sequences of reals passed through unchanged, and their dimension is not checked, as in the source.

## Findings

| source | as written | input that shows it | evidently intended | confidence | as-written member | corrected member |
|---|---|---|---|---|---|---|
| ingestion/file_reader.py:33-42 | suffixes are compared case-sensitively, while the upload route that fills the folder compares extensions lower-cased (services/web_ui/src/routes/upload.py:24) | a file uploaded as `report.PDF` | every file the upload route accepts is picked up by the reader | medium, not executed | FileReader.UploadedButSkipped | FileReader.ClassifyFoldedAgrees |
