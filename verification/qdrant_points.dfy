/** Point construction of the Qdrant orchestrator (`ingest_to_qdrant`) and
    the collection name fixed by its constructor.

    Each file entry contributes one point per `(chunk, embedding)` pair that
    `zip` produces; the point's id is taken from the chunk mapping's keys, in
    insertion order, by one counter that runs across all files. The upsert
    itself is not modelled: the function returns the points it would send. */
module QdrantPoints {
  import opened Wrappers

  type Id = string

  /** An embedding vector; its entries are never inspected. */
  type Vector = seq<real>

  /** One element of `embedded_data`. */
  datatype EmbeddedFile = EmbeddedFile(sourceFile: string, chunks: seq<string>, embeddings: seq<Vector>)

  /** The payload dict of a point. */
  datatype Payload = Payload(id: Id, text: string, sourceFile: string, chunkIndex: nat)

  /** `models.PointStruct(id=..., vector=..., payload=...)` */
  datatype Point = Point(id: Id, vector: Vector, payload: Payload)

  /** `chunk_ids[chunk_idx]` with `chunk_idx` past the end raises `IndexError`. */
  datatype QdrantError = IndexError(position: nat)

  /** `QdrantOrchestrator`: only the collection name is modelled. */
  datatype Orchestrator = Orchestrator(collectionName: string)

  const DefaultCollection: string := "QdrantRagCollection"

  /** `QdrantOrchestrator(qdrant_url, collection_name, qdrant_key)`: the
      `collection_name` argument is accepted and then not used. */
  function NewOrchestrator(url: string, collectionName: string, key: Option<string>): (o: Orchestrator)
    ensures o.collectionName == DefaultCollection
  {
    Orchestrator("QdrantRagCollection")
  }

  /** Whatever name is passed, two orchestrators use the same collection. */
  lemma CollectionNameIgnored(url: string, a: string, b: string, key: Option<string>)
    ensures NewOrchestrator(url, a, key) == NewOrchestrator(url, b, key)
  {
  }

  /** `len(list(zip(chunks, embeddings)))` */
  function Pairs(f: EmbeddedFile): nat {
    if |f.chunks| <= |f.embeddings| then |f.chunks| else |f.embeddings|
  }

  /** Pairs over all file entries. */
  function TotalPairs(files: seq<EmbeddedFile>): nat {
    if files == [] then 0 else Pairs(files[0]) + TotalPairs(files[1..])
  }

  /** The value of the global counter when file `j` starts. */
  function PairOffset(files: seq<EmbeddedFile>, j: nat): nat
    requires j <= |files|
  {
    TotalPairs(files[..j])
  }

  /** The point for pair `i` of file `f`, whose id is `id`. */
  function MakePoint(f: EmbeddedFile, i: nat, id: Id): Point
    requires i < |f.chunks| && i < |f.embeddings|
  {
    Point(id, f.embeddings[i], Payload(id, f.chunks[i], f.sourceFile, i))
  }

  /** The inner loop over `enumerate(zip(chunks, embeddings))`, from pair
      `i`, with the counter at `counter + i`. */
  function FilePointsFrom(f: EmbeddedFile, ids: seq<Id>, counter: nat, i: nat): (r: Result<seq<Point>, QdrantError>)
    requires i <= Pairs(f)
    decreases Pairs(f) - i
  {
    if i == Pairs(f) then Success([])
    else if counter + i >= |ids| then Failure(IndexError(counter + i))
    else
      match FilePointsFrom(f, ids, counter, i + 1)
      case Failure(e) => Failure(e)
      case Success(rest) => Success([MakePoint(f, i, ids[counter + i])] + rest)
  }

  /** The points of one file entry, the counter starting at `counter`. */
  function FilePoints(f: EmbeddedFile, ids: seq<Id>, counter: nat): Result<seq<Point>, QdrantError> {
    FilePointsFrom(f, ids, counter, 0)
  }

  /** The outer loop over `embedded_data`, the counter starting at `counter`. */
  function PointsFrom(files: seq<EmbeddedFile>, ids: seq<Id>, counter: nat): Result<seq<Point>, QdrantError> {
    if files == [] then Success([])
    else
      match FilePoints(files[0], ids, counter)
      case Failure(e) => Failure(e)
      case Success(ps) =>
        match PointsFrom(files[1..], ids, counter + Pairs(files[0]))
        case Failure(e) => Failure(e)
        case Success(rest) => Success(ps + rest)
  }

  /** `ingest_to_qdrant(collection_name, embedded_data, chunk_node_mapping)`:
      the collection the points go to and the points, built against
      `list(chunk_node_mapping.keys())`. */
  function IngestToQdrant(collectionName: string, files: seq<EmbeddedFile>, mappingKeys: seq<Id>): Result<(string, seq<Point>), QdrantError> {
    match PointsFrom(files, mappingKeys, 0)
    case Failure(e) => Failure(e)
    case Success(ps) => Success((collectionName, ps))
  }

  // ------------------------------------------------------------------ one file

  /** The inner loop succeeds exactly when the counter stays inside the key
      list; it then yields one point per remaining pair, the k-th with the
      key at `counter + i + k`, the pair's chunk and vector, and the pair's
      position in the file as `chunk_index`. */
  lemma {:induction false} FilePointsFromSpec(f: EmbeddedFile, ids: seq<Id>, counter: nat, i: nat)
    requires i <= Pairs(f)
    ensures FilePointsFrom(f, ids, counter, i).Success? <==> (i == Pairs(f) || counter + Pairs(f) <= |ids|)
    ensures FilePointsFrom(f, ids, counter, i).Failure? ==>
      FilePointsFrom(f, ids, counter, i).error == IndexError(if counter + i <= |ids| then |ids| else counter + i)
    ensures FilePointsFrom(f, ids, counter, i).Success? ==>
      var ps := FilePointsFrom(f, ids, counter, i).value;
      && |ps| == Pairs(f) - i
      && forall k | 0 <= k < |ps| :: ps[k] == MakePoint(f, i + k, ids[counter + i + k])
    decreases Pairs(f) - i
  {
    if i < Pairs(f) && counter + i < |ids| {
      FilePointsFromSpec(f, ids, counter, i + 1);
    }
  }

  /** A file entry yields `min(len(chunks), len(embeddings))` points, or
      fails on the key list running out. */
  lemma FilePointsSpec(f: EmbeddedFile, ids: seq<Id>, counter: nat)
    ensures FilePoints(f, ids, counter).Success? <==> (Pairs(f) == 0 || counter + Pairs(f) <= |ids|)
    ensures FilePoints(f, ids, counter).Success? ==>
      var ps := FilePoints(f, ids, counter).value;
      && |ps| == Pairs(f)
      && forall k | 0 <= k < |ps| :: ps[k] == MakePoint(f, k, ids[counter + k])
  {
    FilePointsFromSpec(f, ids, counter, 0);
  }

  // ------------------------------------------------------------------ all files

  lemma {:induction false} TotalPairsAppend(a: seq<EmbeddedFile>, b: seq<EmbeddedFile>)
    ensures TotalPairs(a + b) == TotalPairs(a) + TotalPairs(b)
  {
    if a == [] {
      assert a + b == b;
    } else {
      assert (a + b)[0] == a[0];
      assert (a + b)[1..] == a[1..] + b;
      TotalPairsAppend(a[1..], b);
    }
  }

  /** One more file adds its pairs. */
  lemma TotalPairsSnoc(a: seq<EmbeddedFile>, f: EmbeddedFile)
    ensures TotalPairs(a + [f]) == TotalPairs(a) + Pairs(f)
  {
    TotalPairsAppend(a, [f]);
    assert TotalPairs([f]) == Pairs(f) + TotalPairs([f][1..]);
  }

  /** File `j` starts where the files before it end. */
  lemma PairOffsetNext(files: seq<EmbeddedFile>, j: nat)
    requires j < |files|
    ensures PairOffset(files, j + 1) == PairOffset(files, j) + Pairs(files[j])
  {
    assert files[..j + 1] == files[..j] + [files[j]];
    TotalPairsSnoc(files[..j], files[j]);
  }

  /** The files before `j` never hold more pairs than all files. */
  lemma PairOffsetBound(files: seq<EmbeddedFile>, j: nat)
    requires j <= |files|
    ensures PairOffset(files, j) <= TotalPairs(files)
  {
    assert files == files[..j] + files[j..];
    TotalPairsAppend(files[..j], files[j..]);
  }

  lemma PairOffsetStep(files: seq<EmbeddedFile>, j: nat)
    requires j < |files|
    ensures PairOffset(files, j + 1) == PairOffset(files, j) + Pairs(files[j])
    ensures PairOffset(files, j) + Pairs(files[j]) <= TotalPairs(files)
  {
    PairOffsetNext(files, j);
    PairOffsetBound(files, j + 1);
  }

  /** Skipping the first file moves every offset back by its pairs. */
  lemma PairOffsetTail(files: seq<EmbeddedFile>, j: nat)
    requires 0 < j <= |files|
    ensures PairOffset(files, j) == Pairs(files[0]) + PairOffset(files[1..], j - 1)
  {
    assert files[..j] == [files[0]] + files[1..][..j - 1];
    TotalPairsAppend([files[0]], files[1..][..j - 1]);
    assert TotalPairs([files[0]]) == Pairs(files[0]) + TotalPairs([]);
  }

  /** The run succeeds exactly when there are no more pairs than keys left. */
  lemma {:induction false} PointsFromSucceeds(files: seq<EmbeddedFile>, ids: seq<Id>, counter: nat)
    ensures PointsFrom(files, ids, counter).Success? <==> (TotalPairs(files) == 0 || counter + TotalPairs(files) <= |ids|)
    ensures PointsFrom(files, ids, counter).Success? ==> |PointsFrom(files, ids, counter).value| == TotalPairs(files)
    decreases |files|
  {
    if files != [] {
      FilePointsSpec(files[0], ids, counter);
      PointsFromSucceeds(files[1..], ids, counter + Pairs(files[0]));
    }
  }

  /** A successful run is the first file's points followed by the rest's. */
  lemma PointsFromShape(files: seq<EmbeddedFile>, ids: seq<Id>, counter: nat)
    requires files != [] && PointsFrom(files, ids, counter).Success?
    ensures FilePoints(files[0], ids, counter).Success?
    ensures PointsFrom(files[1..], ids, counter + Pairs(files[0])).Success?
    ensures PointsFrom(files, ids, counter).value ==
      FilePoints(files[0], ids, counter).value + PointsFrom(files[1..], ids, counter + Pairs(files[0])).value
  {
  }

  /** Point `PairOffset(files, j) + i` of a successful run is pair `i` of
      file `j`, with the key at that global position: the counter is global
      while `chunk_index` restarts at 0 for every file. */
  lemma {:induction false} PointsFromAt(files: seq<EmbeddedFile>, ids: seq<Id>, counter: nat, j: nat, i: nat)
    requires PointsFrom(files, ids, counter).Success?
    requires j < |files| && i < Pairs(files[j])
    ensures PairOffset(files, j) + i < |PointsFrom(files, ids, counter).value|
    ensures counter + PairOffset(files, j) + i < |ids|
    ensures PointsFrom(files, ids, counter).value[PairOffset(files, j) + i] ==
      MakePoint(files[j], i, ids[counter + PairOffset(files, j) + i])
    decreases j
  {
    var ps := FilePoints(files[0], ids, counter).value;
    var c1 := counter + Pairs(files[0]);
    var rest := PointsFrom(files[1..], ids, c1).value;
    assert PointsFrom(files, ids, counter).value == ps + rest by {
      PointsFromShape(files, ids, counter);
    }
    assert |ps| == Pairs(files[0]) && forall k | 0 <= k < |ps| :: ps[k] == MakePoint(files[0], k, ids[counter + k]) by {
      PointsFromShape(files, ids, counter);
      FilePointsSpec(files[0], ids, counter);
    }
    if j == 0 {
      assert files[..0] == [];
      assert counter + i < |ids| by {
        PointsFromShape(files, ids, counter);
        FilePointsSpec(files[0], ids, counter);
      }
    } else {
      assert PairOffset(files, j) == Pairs(files[0]) + PairOffset(files[1..], j - 1) by {
        PairOffsetTail(files, j);
      }
      assert PointsFrom(files[1..], ids, c1).Success? by {
        PointsFromShape(files, ids, counter);
      }
      PointsFromAt(files[1..], ids, c1, j - 1, i);
    }
  }

  /** `ingest_to_qdrant` succeeds exactly when the files hold no more pairs
      than the mapping has keys; otherwise `chunk_ids[chunk_idx]` raises. */
  lemma IngestSucceeds(name: string, files: seq<EmbeddedFile>, keys: seq<Id>)
    ensures IngestToQdrant(name, files, keys).Success? <==> TotalPairs(files) <= |keys|
    ensures IngestToQdrant(name, files, keys).Failure? ==> IngestToQdrant(name, files, keys).error == IndexError(|keys|)
    ensures IngestToQdrant(name, files, keys).Success? ==>
      IngestToQdrant(name, files, keys).value.0 == name && |IngestToQdrant(name, files, keys).value.1| == TotalPairs(files)
  {
    PointsFromSucceeds(files, keys, 0);
    if PointsFrom(files, keys, 0).Failure? {
      PointsFromError(files, keys, 0);
    }
  }

  /** The only error is the counter reaching the end of the key list. */
  lemma {:induction false} PointsFromError(files: seq<EmbeddedFile>, ids: seq<Id>, counter: nat)
    requires PointsFrom(files, ids, counter).Failure? && counter <= |ids|
    ensures PointsFrom(files, ids, counter).error == IndexError(|ids|)
    decreases |files|
  {
    FilePointsFromSpec(files[0], ids, counter, 0);
    if FilePoints(files[0], ids, counter).Success? {
      PointsFromError(files[1..], ids, counter + Pairs(files[0]));
    }
  }

  /** Point `PairOffset(files, j) + i` carries the key at that position of
      the mapping's key list, as id and as payload `"id"`, with the text and
      vector of pair `i` of file `j`, that file's name, and `chunk_index` `i`. */
  lemma IngestPointAt(name: string, files: seq<EmbeddedFile>, keys: seq<Id>, j: nat, i: nat)
    requires IngestToQdrant(name, files, keys).Success?
    requires j < |files| && i < Pairs(files[j])
    ensures var ps := IngestToQdrant(name, files, keys).value.1;
      var k := PairOffset(files, j) + i;
      && k < |ps| && k < |keys|
      && ps[k].id == keys[k] && ps[k].payload.id == keys[k]
      && ps[k].payload.text == files[j].chunks[i] && ps[k].vector == files[j].embeddings[i]
      && ps[k].payload.sourceFile == files[j].sourceFile && ps[k].payload.chunkIndex == i
  {
    PointsFromAt(files, keys, 0, j, i);
  }

  /** Every point's id equals its payload's `"id"`, and all come from the
      key list. */
  lemma IngestIdsMatch(name: string, files: seq<EmbeddedFile>, keys: seq<Id>, k: nat)
    requires IngestToQdrant(name, files, keys).Success?
    requires k < |IngestToQdrant(name, files, keys).value.1|
    ensures var p := IngestToQdrant(name, files, keys).value.1[k];
      p.id == p.payload.id && k < |keys| && p.id == keys[k]
  {
    PointsFromSucceeds(files, keys, 0);
    var j, i := PairOf(files, k);
    PointsFromAt(files, keys, 0, j, i);
  }

  /** Every global position below `TotalPairs` is pair `i` of some file `j`. */
  lemma {:induction false} PairOf(files: seq<EmbeddedFile>, k: nat) returns (j: nat, i: nat)
    requires k < TotalPairs(files)
    ensures j < |files| && i < Pairs(files[j]) && k == PairOffset(files, j) + i
    decreases |files|
  {
    assert files[..0] == [];
    if k < Pairs(files[0]) {
      j, i := 0, k;
    } else {
      var j', i' := PairOf(files[1..], k - Pairs(files[0]));
      j, i := j' + 1, i';
      PairOffsetTail(files, j);
    }
  }

  /** A later file starts no earlier than where an earlier one ends. */
  lemma {:induction false} PairOffsetMono(files: seq<EmbeddedFile>, a: nat, b: nat)
    requires a < b <= |files|
    ensures PairOffset(files, a) + Pairs(files[a]) <= PairOffset(files, b)
    decreases b - a
  {
    PairOffsetNext(files, a);
    if a + 1 < b {
      PairOffsetMono(files, a + 1, b);
    }
  }

  /** A global position is pair `i` of file `j` for at most one `j` and
      `i`: the counter never gives two pairs the same key position. */
  lemma PairOfUnique(files: seq<EmbeddedFile>, k: nat, j: nat, i: nat, j': nat, i': nat)
    requires j < |files| && i < Pairs(files[j]) && k == PairOffset(files, j) + i
    requires j' < |files| && i' < Pairs(files[j']) && k == PairOffset(files, j') + i'
    ensures j == j' && i == i'
  {
    if j < j' {
      PairOffsetMono(files, j, j');
      assert false;
    } else if j' < j {
      PairOffsetMono(files, j', j);
      assert false;
    }
  }
}
