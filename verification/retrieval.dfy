/** The string-handling steps of the retrieval tool: pulling `text` and `id`
    out of each retriever item's content by marker search, filtering and
    de-duplicating the graph records of `fetch_graph_context`, and laying
    out the final context string. The embedding call, the vector search and
    the Cypher query are not modelled: their results are inputs. */
module Retrieval {
  import opened Wrappers
  import opened Seqs
  import opened PyStr

  const TextMarker: string := "'text': '"
  const IdMarker: string := "'id': '"
  const Quote: string := "'"

  // ------------------------------------------------------------------ parse_retriever_results

  /** `start = content.find(marker) + len(marker)`,
      `end = content.find("'", start)`, `content[start:end]`. */
  function ExtractField(content: string, marker: string): string {
    var start := Find(content, marker, 0) + |marker|;
    var end := Find(content, Quote, start);
    Slice(content, start, end)
  }

  /** A one-character `find` that returns -1 means no such character from
      the start position on. */
  lemma FindQuoteNone(content: string, start: int, j: int)
    requires Find(content, Quote, start) == -1 && NormStart(start, |content|) <= j < |content|
    ensures content[j] != '\''
  {
    assert !OccursAt(content, Quote, j);
    assert content[j..j + 1] == [content[j]];
  }

  /** No character before the first quote found is a quote. */
  lemma FindQuoteBefore(content: string, start: int, j: int)
    requires Find(content, Quote, start) != -1 && NormStart(start, |content|) <= j < Find(content, Quote, start)
    ensures content[j] != '\''
  {
    assert !OccursAt(content, Quote, j);
    assert content[j..j + 1] == [content[j]];
  }

  /** The extracted field never contains a single quote, whether or not the
      marker or the closing quote is found. */
  lemma ExtractFieldNoQuote(content: string, marker: string)
    requires marker != []
    ensures '\'' !in ExtractField(content, marker)
  {
    var start := Find(content, marker, 0) + |marker|;
    var end := Find(content, Quote, start);
    var r := ExtractField(content, marker);
    var lo := Clamp(start, |content|);
    assert lo == NormStart(start, |content|) || lo == |content|;
    forall j | 0 <= j < |r|
      ensures r[j] != '\''
    {
      assert r[j] == content[lo + j];
      if end == -1 {
        FindQuoteNone(content, start, lo + j);
      } else {
        FindQuoteBefore(content, start, lo + j);
      }
    }
  }

  /** Round trip: a value written after the first occurrence of its marker
      and closed by a quote is extracted as written. */
  lemma ExtractFieldAfter(pre: string, marker: string, v: string, post: string)
    requires marker != [] && '\'' !in v
    requires forall j | 0 <= j < |pre| :: !OccursAt(pre + marker + v + Quote + post, marker, j)
    ensures ExtractField(pre + marker + v + Quote + post, marker) == v
  {
    var content := pre + marker + v + Quote + post;
    var a := |pre| + |marker|;
    var b := a + |v|;
    assert content[|pre|..a] == marker;
    assert OccursAt(content, marker, |pre|);
    assert Find(content, marker, 0) == |pre|;
    assert content[b..b + 1] == Quote;
    assert OccursAt(content, Quote, b);
    forall j | a <= j < b
      ensures !OccursAt(content, Quote, j)
    {
      assert content[j..j + 1] == [v[j - a]];
      assert v[j - a] in v;
    }
    assert Find(content, Quote, a) == b;
    assert content[a..b] == v;
  }

  /** When the marker is missing, `find` gives -1 and extraction starts at
      `len(marker) - 1`; when no quote follows either, the end index -1
      drops the last character: the field is `content[len(marker)-1:-1]`. */
  lemma ExtractFieldMissing(content: string, marker: string)
    requires marker != []
    requires Find(content, marker, 0) == -1
    requires Find(content, Quote, |marker| - 1) == -1
    ensures ExtractField(content, marker) == Slice(content, |marker| - 1, -1)
    ensures |marker| <= |content| ==> ExtractField(content, marker) == content[|marker| - 1..|content| - 1]
  {
  }

  /** `parse_retriever_results`: the text and the id of every item, in item
      order. Nothing in the loop body raises on a string, so no item is
      skipped. */
  function ParseRetrieverResults(items: seq<string>): (r: (seq<string>, seq<string>))
    ensures |r.0| == |items| && |r.1| == |items|
    ensures forall i | 0 <= i < |items| :: r.0[i] == ExtractField(items[i], TextMarker) && r.1[i] == ExtractField(items[i], IdMarker)
  {
    (seq(|items|, i requires 0 <= i < |items| => ExtractField(items[i], TextMarker)),
     seq(|items|, i requires 0 <= i < |items| => ExtractField(items[i], IdMarker)))
  }

  /** No extracted text or id contains a single quote. */
  lemma ParsedHaveNoQuote(items: seq<string>, i: nat)
    requires i < |items|
    ensures '\'' !in ParseRetrieverResults(items).0[i]
    ensures '\'' !in ParseRetrieverResults(items).1[i]
  {
    ExtractFieldNoQuote(items[i], TextMarker);
    ExtractFieldNoQuote(items[i], IdMarker);
  }

  // ------------------------------------------------------------------ fetch_graph_context

  /** One row returned by the graph query; any column may be null. */
  datatype Record = Record(entity: Option<string>, rel: Option<string>, relatedNode: Option<string>)

  /** Python truthiness of an optional string. */
  predicate Truthy(o: Option<string>) {
    o.Some? && o.value != ""
  }

  /** `str(x)` inside an f-string: `None` for a null. */
  function Show(o: Option<string>): string {
    if o.Some? then o.value else "None"
  }

  /** `f"({entity}) -[{rel}]-> ({related_node})"` */
  function RelString(r: Record): string {
    "(" + Show(r.entity) + ") -[" + Show(r.rel) + "]-> (" + Show(r.relatedNode) + ")"
  }

  /** The string a record contributes, if it passes the filter. */
  function Contributes(r: Record): Option<string> {
    if Truthy(r.rel) && Truthy(r.relatedNode) then Some(RelString(r)) else None
  }

  /** `fetch_graph_context(driver, chunk_ids)`, given the rows the query
      returns: `[]` without querying for no ids, otherwise the distinct
      strings of the rows with a relationship and a related node. Python's
      `list(set(...))` order is unspecified; first occurrence is used. */
  function FetchGraphContext(chunkIds: seq<string>, rows: seq<Record>): seq<string> {
    if chunkIds == [] then [] else Dedup(FilterMap(Contributes, rows))
  }

  lemma {:induction false} FilterMapMember(s: seq<Record>, x: string)
    ensures x in FilterMap(Contributes, s) <==> exists i | 0 <= i < |s| :: Contributes(s[i]) == Some(x)
    decreases |s|
  {
    if s != [] {
      FilterMapMember(s[1..], x);
      if exists i | 0 <= i < |s[1..]| :: Contributes(s[1..][i]) == Some(x) {
        var i :| 0 <= i < |s[1..]| && Contributes(s[1..][i]) == Some(x);
        assert Contributes(s[i + 1]) == Some(x);
      }
      if exists i | 0 <= i < |s| :: Contributes(s[i]) == Some(x) {
        var i :| 0 <= i < |s| && Contributes(s[i]) == Some(x);
        if i > 0 {
          assert Contributes(s[1..][i - 1]) == Some(x);
        }
      }
    }
  }

  /** No ids, no context; otherwise the result has no repeats and holds
      exactly the strings of the rows whose `rel` and `related_node` are
      both non-null and non-empty. */
  lemma FetchGraphContextSpec(chunkIds: seq<string>, rows: seq<Record>, x: string)
    ensures chunkIds == [] ==> FetchGraphContext(chunkIds, rows) == []
    ensures NoDup(FetchGraphContext(chunkIds, rows))
    ensures chunkIds != [] ==>
      (x in FetchGraphContext(chunkIds, rows) <==>
       exists i | 0 <= i < |rows| :: Truthy(rows[i].rel) && Truthy(rows[i].relatedNode) && RelString(rows[i]) == x)
  {
    FilterMapMember(rows, x);
    var s := FilterMap(Contributes, rows);
    var d := Dedup(s);
    if x in s {
      var i :| 0 <= i < |s| && s[i] == x;
    }
    if x in d {
      var i :| 0 <= i < |d| && d[i] == x;
    }
  }

  // ------------------------------------------------------------------ format_context

  const ChunksHeader: string := "=== RELEVANT TEXT CHUNKS ==="
  const GraphHeader: string := "=== KNOWLEDGE GRAPH CONTEXT ==="

  /** `f"Chunk {i + 1}:\n{text}"` for the chunk at index `i`. */
  function ChunkBlock(i: nat, text: string): string {
    "Chunk " + NatToString(i + 1) + ":\n" + text
  }

  function ChunkBlocks(chunks: seq<string>): seq<string> {
    seq(|chunks|, i requires 0 <= i < |chunks| => ChunkBlock(i, chunks[i]))
  }

  /** The opening line break and the chunk header line. */
  function ContextHead(): string {
    "\n" + ChunksHeader + "\n"
  }

  /** The graph header line, the relationships one per line, and the
      closing line break. */
  function ContextTail(rels: seq<string>): string {
    "\n" + GraphHeader + "\n" + Join(rels, "\n") + "\n"
  }

  /** `format_context(chunks, relationships)`: the chunk blocks joined by
      blank lines between the two headers. */
  function FormatContext(chunks: seq<string>, rels: seq<string>): string {
    ContextHead() + (Join(ChunkBlocks(chunks), "\n\n") + "\n") + ContextTail(rels)
  }

  /** The context always opens with the chunk header and always ends with
      the graph header followed by the relationships, one per line. */
  lemma FormatContextSections(chunks: seq<string>, rels: seq<string>)
    ensures StartsWith(FormatContext(chunks, rels), "\n" + ChunksHeader + "\n")
    ensures EndsWith(FormatContext(chunks, rels), ContextTail(rels))
  {
    var head := ContextHead();
    var mid := Join(ChunkBlocks(chunks), "\n\n") + "\n";
    var tail := ContextTail(rels);
    assert (head + mid + tail)[..|head|] == head;
    assert (head + mid + tail)[|head + mid|..] == tail;
  }

  /** Relationships without line breaks are recovered from the graph
      section by splitting it on line breaks. */
  lemma GraphSectionSplits(rels: seq<string>)
    requires |rels| >= 1 && forall i | 0 <= i < |rels| :: '\n' !in rels[i]
    ensures Split(Join(rels, "\n"), '\n') == rels
  {
    SplitJoin(rels, '\n');
  }

  lemma ChunkBlockNumber(chunks: seq<string>, k: nat)
    requires k < |chunks|
    ensures var b := ChunkBlocks(chunks)[k];
      var n := NatToString(k + 1);
      && StartsWith(b, "Chunk " + n + ":\n")
      && b[|n| + 8..] == chunks[k]
      && ParseNat(n) == k + 1
  {
    var n := NatToString(k + 1);
    var b := ChunkBlocks(chunks)[k];
    assert b == ("Chunk " + n + ":\n") + chunks[k];
    NatToStringParse(k + 1);
  }

  /** Where the block of the chunk at index `k` starts in the context. */
  function ChunkPosition(chunks: seq<string>, k: nat): nat
    requires k <= |chunks|
  {
    |ContextHead()| + JoinOffset(ChunkBlocks(chunks), "\n\n", k)
  }

  /** The block of every chunk lies whole between the chunk header and the
      graph header. */
  lemma FormatContextHasChunk(chunks: seq<string>, rels: seq<string>, k: nat)
    requires k < |chunks|
    ensures var b := "Chunk " + NatToString(k + 1) + ":\n" + chunks[k];
      var p := ChunkPosition(chunks, k);
      var f := FormatContext(chunks, rels);
      && |ContextHead()| <= p
      && p + |b| + 1 + |ContextTail(rels)| <= |f|
      && f[p..p + |b|] == b
  {
    var blocks := ChunkBlocks(chunks);
    assert blocks[k] == "Chunk " + NatToString(k + 1) + ":\n" + chunks[k];
    BlockAt(ContextHead(), blocks, ContextTail(rels), k);
  }

  /** The same for any head and tail around the blocks joined by blank
      lines and closed by a line break. */
  lemma BlockAt(head: string, blocks: seq<string>, tail: string, k: nat)
    requires k < |blocks|
    ensures var f := head + (Join(blocks, "\n\n") + "\n") + tail;
      var p := |head| + JoinOffset(blocks, "\n\n", k);
      && p + |blocks[k]| + 1 + |tail| <= |f|
      && f[p..p + |blocks[k]|] == blocks[k]
  {
    JoinAt(blocks, "\n\n", k);
    MiddleSlice(head, Join(blocks, "\n\n"), "\n", tail, JoinOffset(blocks, "\n\n", k), blocks[k]);
  }

  /** A piece found at `q` in `m` is found `|a|` further on in
      `a + (m + n) + c`, with all of `n` and `c` still after it. */
  lemma MiddleSlice(a: string, m: string, n: string, c: string, q: nat, e: string)
    requires q + |e| <= |m| && m[q..q + |e|] == e
    ensures |a| + q + |e| + |n| + |c| <= |a + (m + n) + c|
    ensures (a + (m + n) + c)[|a| + q..|a| + q + |e|] == e
  {
    assert (a + (m + n) + c)[|a|..|a| + |m|] == m;
  }

  /** The chunk blocks appear in index order, a blank line apart. */
  lemma ChunksInOrder(chunks: seq<string>, j: nat, k: nat)
    requires j < k < |chunks|
    ensures ChunkPosition(chunks, j) + |ChunkBlock(j, chunks[j])| + 2 <= ChunkPosition(chunks, k)
  {
    JoinOffsetGrows(ChunkBlocks(chunks), "\n\n", j, k);
  }

  /** The last line break is preceded by the relationships joined by line
      breaks, and those by the graph header line. */
  lemma FormatContextGraphSection(chunks: seq<string>, rels: seq<string>)
    ensures var f := FormatContext(chunks, rels);
      var g := Join(rels, "\n");
      var s := |f| - |g| - 1;
      && |ContextHead()| + |GraphHeader| + 2 <= s
      && EndsWith(f[..s], "\n" + GraphHeader + "\n")
      && f[s..|f| - 1] == g
      && f[|f| - 1] == '\n'
  {
    var f := FormatContext(chunks, rels);
    var g := Join(rels, "\n");
    var pre := ContextHead() + (Join(ChunkBlocks(chunks), "\n\n") + "\n") + ("\n" + GraphHeader + "\n");
    assert f == pre + g + "\n";
    assert f[..|pre|] == pre;
    assert (pre + g + "\n")[|pre|..|pre| + |g|] == g;
  }

  /** Relationships without line breaks are read back from the context by
      splitting its graph section on line breaks. */
  lemma FormatContextGraphLines(chunks: seq<string>, rels: seq<string>)
    requires |rels| >= 1 && forall i | 0 <= i < |rels| :: '\n' !in rels[i]
    ensures var f := FormatContext(chunks, rels);
      Split(f[|f| - |Join(rels, "\n")| - 1..|f| - 1], '\n') == rels
  {
    FormatContextGraphSection(chunks, rels);
    GraphSectionSplits(rels);
  }

  // ------------------------------------------------------------------ decimal round trip

  function DigitValue(c: char): nat {
    if '0' <= c <= '9' then (c as int - '0' as int) as nat else 0
  }

  /** The value of a string of decimal digits. */
  function ParseNat(s: string): nat {
    if s == [] then 0 else ParseNat(s[..|s| - 1]) * 10 + DigitValue(s[|s| - 1])
  }

  /** `str(n)` reads back as `n`. */
  lemma {:induction false} NatToStringParse(n: nat)
    ensures ParseNat(NatToString(n)) == n
    decreases n
  {
    var s := NatToString(n);
    if n < 10 {
      assert DigitValue(DigitChar(n)) == n;
    } else {
      NatToStringParse(n / 10);
      assert s[..|s| - 1] == NatToString(n / 10);
      assert DigitValue(DigitChar(n % 10)) == n % 10;
    }
  }
}
