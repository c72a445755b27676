/** The join between the two stores: the graph extractor keys each chunk
    by a fresh id in `chunk_node_mapping`, and the Qdrant ingester later
    hands out those keys, in insertion order, to the embedded chunks. When
    the embedded files list the same chunks in the same order as the
    extractor's input, the point built for a chunk carries the key of that
    very chunk's record. */
module Alignment {
  import opened Wrappers
  import opened OrderedDict
  import opened Extraction
  import opened ExtractionFacts
  import opened ExtractionTheorems
  import opened QdrantPoints

  /** The embedded files are the extractor's list input, entry for entry:
      the same chunks under the same file name, each with an embedding. */
  predicate Mirrors(files: seq<EmbeddedFile>, es: seq<Entry>) {
    && |files| == |es|
    && forall j | 0 <= j < |files| ::
         && es[j] == ChunkedFile(Some(files[j].sourceFile), files[j].chunks)
         && |files[j].chunks| <= |files[j].embeddings|
  }

  /** File `j`'s points start at the position where entry `j`'s chunks
      start in the extractor's chunk list. */
  lemma {:induction false} MirrorOffsets(files: seq<EmbeddedFile>, es: seq<Entry>, j: nat)
    requires Mirrors(files, es) && j <= |files|
    ensures PairOffset(files, j) == Offset(es, j)
    decreases j
  {
    if j == 0 {
      assert files[..0] == [] && es[..0] == [];
    } else {
      MirrorOffsets(files, es, j - 1);
      PairOffsetStep(files, j - 1);
      assert es[..j] == es[..j - 1] + [es[j - 1]];
      FlattenAppend(es[..j - 1], [es[j - 1]]);
      assert Flatten([es[j - 1]]) == Expand(es[j - 1]) + Flatten([]);
    }
  }

  /** The files hold exactly as many pairs as the extractor has chunks. */
  lemma MirrorTotal(files: seq<EmbeddedFile>, es: seq<Entry>)
    requires Mirrors(files, es)
    ensures TotalPairs(files) == |Normalise(Entries(es)).value|
  {
    MirrorOffsets(files, es, |files|);
    assert files[..|files|] == files;
    NormaliseLength(es);
  }

  /** Alignment: with distinct uuids and mirrored inputs, ingestion into
      Qdrant succeeds, and the point for chunk `i` of file `j` has as id the
      key whose record holds the same text and file, with the chunk's global
      position as `chunk_index`, while the point's own payload counts
      `chunk_index` from 0 within the file. */
  lemma AlignedIds(name: string, files: seq<EmbeddedFile>, es: seq<Entry>, uuid: IdSource, answer: Answer, g: Graph, j: nat, i: nat)
    requires Mirrors(files, es) && Injective(uuid)
    requires ExtractGraphComponents(Entries(es), uuid, answer) == Success(g)
    requires j < |files| && i < |files[j].chunks|
    ensures IngestToQdrant(name, files, g.chunkMapping.keys).Success?
    ensures var ps := IngestToQdrant(name, files, g.chunkMapping.keys).value.1;
      var k := Offset(es, j) + i;
      && k < |ps| && k < |g.chunkMapping.keys|
      && ps[k].id == g.chunkMapping.keys[k] && ps[k].id in g.chunkMapping.m
      && g.chunkMapping.m[ps[k].id].chunkIndex == k
      && g.chunkMapping.m[ps[k].id].text == ps[k].payload.text
      && g.chunkMapping.m[ps[k].id].sourceFile == Some(ps[k].payload.sourceFile)
      && ps[k].payload.chunkIndex == i
      && g.chunkMapping.m[ps[k].id].chunkIndex == ps[k].payload.chunkIndex + Offset(es, j)
  {
    var keys := g.chunkMapping.keys;
    assert IngestToQdrant(name, files, keys).Success? by {
      var cs := Normalise(Entries(es)).value;
      ExtractionMappingSize(Entries(es), uuid, answer, cs, g);
      MirrorTotal(files, es);
      IngestSucceeds(name, files, keys);
    }
    AlignedPoint(name, files, es, keys, j, i);
    AlignedRecord(es, uuid, answer, g, j, i);
  }

  /** The point for chunk `i` of file `j` sits at the chunk's global
      position and carries the key there, the chunk's text and file, and
      `i` as `chunk_index`. */
  lemma AlignedPoint(name: string, files: seq<EmbeddedFile>, es: seq<Entry>, keys: seq<Id>, j: nat, i: nat)
    requires Mirrors(files, es) && IngestToQdrant(name, files, keys).Success?
    requires j < |files| && i < |files[j].chunks|
    ensures var ps := IngestToQdrant(name, files, keys).value.1;
      var k := Offset(es, j) + i;
      && k < |ps| && k < |keys| && ps[k].id == keys[k]
      && ps[k].payload.text == files[j].chunks[i]
      && ps[k].payload.sourceFile == files[j].sourceFile && ps[k].payload.chunkIndex == i
  {
    MirrorOffsets(files, es, j);
    assert Pairs(files[j]) == |files[j].chunks|;
    IngestPointAt(name, files, keys, j, i);
  }

  /** The key at the global position of chunk `i` of entry `j` records
      that chunk's text and file and the position itself. */
  lemma AlignedRecord(es: seq<Entry>, uuid: IdSource, answer: Answer, g: Graph, j: nat, i: nat)
    requires Injective(uuid) && ExtractGraphComponents(Entries(es), uuid, answer) == Success(g)
    requires j < |es| && es[j].ChunkedFile? && i < |es[j].chunks|
    ensures var k := Offset(es, j) + i;
      var m := g.chunkMapping;
      && k < |m.keys| && m.keys[k] in m.m
      && m.m[m.keys[k]].text == es[j].chunks[i]
      && m.m[m.keys[k]].sourceFile == es[j].file
      && m.m[m.keys[k]].chunkIndex == k
  {
    NormaliseEntries(es, j, i);
    var cs := Normalise(Entries(es)).value;
    ExtractionChunkMapping(Entries(es), uuid, answer, cs, g, Offset(es, j) + i);
  }

  /** The payload's `chunk_index` and the record's agree exactly in the
      files that start at global position 0: for a file that starts after
      a non-empty one, they differ. */
  lemma ChunkIndexDiverges(name: string, files: seq<EmbeddedFile>, es: seq<Entry>, uuid: IdSource, answer: Answer, g: Graph, j: nat, i: nat)
    requires Mirrors(files, es) && Injective(uuid)
    requires ExtractGraphComponents(Entries(es), uuid, answer) == Success(g)
    requires j < |files| && i < |files[j].chunks|
    ensures IngestToQdrant(name, files, g.chunkMapping.keys).Success?
    ensures var ps := IngestToQdrant(name, files, g.chunkMapping.keys).value.1;
      var k := Offset(es, j) + i;
      k < |ps| && ps[k].id in g.chunkMapping.m &&
      (g.chunkMapping.m[ps[k].id].chunkIndex == ps[k].payload.chunkIndex <==> Offset(es, j) == 0)
  {
    AlignedIds(name, files, es, uuid, answer, g, j, i);
  }
}
