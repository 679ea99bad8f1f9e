/** The chunk-id stamping pass of `split_docs_with_chunk_ids`
    (scripts/eval_retrieval.py): after splitting, every chunk gets the
    metadata entry `chunk_id = "<doc_id>#c<n>"`, `n` counting the earlier
    chunks of the same document from 0. The splitter itself is a library
    call and is not modelled; the pass takes its output as input. */
module ChunkIds {
  import opened Base
  import opened Text

  const UnknownDoc: string := "unknown.pdf"
  const ChunkIdKey: string := "chunk_id"

  /** The document a chunk belongs to: its `doc_id`, else its `source`,
      else "unknown.pdf". A key that is present wins even when its value is
      `None`, as with Python's `dict.get`. */
  function DocKey(m: Metadata): (v: Value)
    ensures "doc_id" in m ==> v == m["doc_id"]
    ensures "doc_id" !in m && "source" in m ==> v == m["source"]
    ensures "doc_id" !in m && "source" !in m ==> v == Str(UnknownDoc)
  {
    Get(m, "doc_id", Get(m, "source", Str(UnknownDoc)))
  }

  /** How an f-string renders a metadata value. */
  function Format(v: Value): string {
    match v
    case Null => "None"
    case Num(n) => IntToString(n)
    case Str(s) => s
  }

  /** A chunk with its `chunk_id` metadata entry set to `id`. */
  function Stamp(c: Document, id: string): Document {
    Document(c.pageContent, c.metadata[ChunkIdKey := Str(id)])
  }

  /** The `chunk_id` metadata entry of a chunk, `None` when absent. */
  function IdOf(c: Document): Value {
    Get(c.metadata, ChunkIdKey, Null)
  }

  /** The number of chunks among the first `n` whose document is `key`. */
  function CountBefore(chunks: seq<Document>, n: nat, key: Value): (r: nat)
    requires n <= |chunks|
    ensures r <= n
  {
    if n == 0 then 0
    else CountBefore(chunks, n - 1, key) + (if DocKey(chunks[n - 1].metadata) == key then 1 else 0)
  }

  /** The id the pass gives to chunk `i`: its document, "#c", and the
      number of earlier chunks of that document. */
  function ChunkId(chunks: seq<Document>, i: nat): string
    requires i < |chunks|
  {
    var key := DocKey(chunks[i].metadata);
    Format(key) + "#c" + NatToString(CountBefore(chunks, i, key))
  }

  /** An id reads back at its last "#": before it the rendered document,
      then "c" and the counter. */
  lemma ChunkIdSplits(chunks: seq<Document>, i: nat)
    requires i < |chunks|
    ensures var r := ChunkId(chunks, i);
            var doc := Format(DocKey(chunks[i].metadata));
            |r| > |doc| + 2 && LastHash(r) == |doc| && r[..|doc|] == doc && r[|doc|..|doc| + 2] == "#c"
  {
    var key := DocKey(chunks[i].metadata);
    LastHashIsMarker(Format(key), NatToString(CountBefore(chunks, i, key)));
  }

  /** The stamping loop: a per-document counter map, read with default 0
      and bumped after each chunk. Chunk order, count and text are kept,
      each chunk's metadata gains (or has overwritten) exactly its
      `chunk_id`, and the ids are pairwise distinct whenever the documents
      are all named by strings, as the loader's file names are, or all by
      integers. */
  method StampChunkIds(chunks: seq<Document>) returns (out: seq<Document>)
    ensures |out| == |chunks|
    ensures forall i :: 0 <= i < |out| ==> out[i] == Stamp(chunks[i], ChunkId(chunks, i))
    ensures UniformDocs(chunks) ==>
              forall i, j :: 0 <= i < j < |out| ==> IdOf(out[i]) != IdOf(out[j])
  {
    var counters: map<Value, nat> := map[];
    out := [];
    for i := 0 to |chunks|
      invariant out == StampPrefix(chunks, i)
      invariant CountersAt(chunks, i, counters)
    {
      var c := chunks[i];
      var docId := DocKey(c.metadata);
      var idx := if docId in counters then counters[docId] else 0;
      CountersStep(chunks, i, counters);
      out := out + [Stamp(c, Format(docId) + "#c" + NatToString(idx))];
      counters := counters[docId := idx + 1];
    }
    StampedAll(chunks);
  }

  /** The counter map after `i` chunks: each document's entry, 0 when
      absent, is the number of its chunks among the first `i`. */
  ghost predicate CountersAt(chunks: seq<Document>, i: nat, counters: map<Value, nat>)
    requires i <= |chunks|
  {
    forall v :: CountBefore(chunks, i, v) == if v in counters then counters[v] else 0
  }

  /** One step of the loop: the counter read for chunk `i` gives its id,
      and bumping it keeps the counter map in step. */
  lemma CountersStep(chunks: seq<Document>, i: nat, counters: map<Value, nat>)
    requires i < |chunks|
    requires CountersAt(chunks, i, counters)
    ensures var docId := DocKey(chunks[i].metadata);
            var idx := if docId in counters then counters[docId] else 0;
            && ChunkId(chunks, i) == Format(docId) + "#c" + NatToString(idx)
            && CountersAt(chunks, i + 1, counters[docId := idx + 1])
  {
    var docId := DocKey(chunks[i].metadata);
    var idx := if docId in counters then counters[docId] else 0;
    assert idx == CountBefore(chunks, i, docId);
    var next := counters[docId := idx + 1];
    var j := i + 1;
    forall v ensures CountBefore(chunks, j, v) == if v in next then next[v] else 0 {
      assert CountBefore(chunks, j, v) == CountBefore(chunks, i, v) + (if docId == v then 1 else 0);
    }
  }

  /** The whole stamped list holds every chunk with its own id, and the ids
      are distinct when documents are uniformly named. */
  lemma StampedAll(chunks: seq<Document>)
    ensures var out := StampPrefix(chunks, |chunks|);
            && (forall i :: 0 <= i < |out| ==> out[i] == Stamp(chunks[i], ChunkId(chunks, i)))
            && (UniformDocs(chunks) ==>
                  forall i, j :: 0 <= i < j < |out| ==> IdOf(out[i]) != IdOf(out[j]))
  {
    var out := StampPrefix(chunks, |chunks|);
    forall i | 0 <= i < |chunks|
      ensures out[i] == Stamp(chunks[i], ChunkId(chunks, i))
    {
      StampPrefixAt(chunks, |chunks|, i);
    }
    StampedIdsDistinct(chunks, out);
  }

  /** The first `n` chunks, each stamped with its id. */
  function StampPrefix(chunks: seq<Document>, n: nat): (r: seq<Document>)
    requires n <= |chunks|
    ensures |r| == n
  {
    if n == 0 then [] else StampPrefix(chunks, n - 1) + [Stamp(chunks[n - 1], ChunkId(chunks, n - 1))]
  }

  /** Chunk `i` of the stamped prefix is chunk `i` stamped with its id. */
  lemma {:induction false} StampPrefixAt(chunks: seq<Document>, n: nat, i: nat)
    requires i < n <= |chunks|
    ensures StampPrefix(chunks, n)[i] == Stamp(chunks[i], ChunkId(chunks, i))
  {
    if i < n - 1 {
      StampPrefixAt(chunks, n - 1, i);
      assert StampPrefix(chunks, n)[i] == StampPrefix(chunks, n - 1)[i];
    }
  }

  lemma StampedIdsDistinct(chunks: seq<Document>, out: seq<Document>)
    requires |out| == |chunks|
    requires forall i :: 0 <= i < |out| ==> out[i] == Stamp(chunks[i], ChunkId(chunks, i))
    ensures UniformDocs(chunks) ==>
              forall i, j :: 0 <= i < j < |out| ==> IdOf(out[i]) != IdOf(out[j])
  {
    if UniformDocs(chunks) {
      forall i, j | 0 <= i < j < |out|
        ensures IdOf(out[i]) != IdOf(out[j])
      {
        ChunkIdsDistinct(chunks, i, j);
      }
    }
  }

  /** Every chunk's document is named by a string. */
  ghost predicate StringDocs(chunks: seq<Document>) {
    forall i :: 0 <= i < |chunks| ==> DocKey(chunks[i].metadata).Str?
  }

  /** Every chunk's document is named by an integer. */
  ghost predicate NumberDocs(chunks: seq<Document>) {
    forall i :: 0 <= i < |chunks| ==> DocKey(chunks[i].metadata).Num?
  }

  /** All documents are named the same way, by strings or by integers, so
      no two of them can render alike (as "7" and 7 would). */
  ghost predicate UniformDocs(chunks: seq<Document>) {
    StringDocs(chunks) || NumberDocs(chunks)
  }

  /** Two strings, or two integers, that render alike are equal. */
  lemma FormatInjective(a: Value, b: Value)
    requires (a.Str? && b.Str?) || (a.Num? && b.Num?)
    requires Format(a) == Format(b)
    ensures a == b
  {
    if a.Num? {
      IntToStringInjective(a.n, b.n);
    }
  }

  /** A later chunk of the same document has seen strictly more chunks of
      that document. */
  lemma {:induction false} CountGrows(chunks: seq<Document>, i: nat, j: nat)
    requires i < j <= |chunks|
    ensures CountBefore(chunks, j, DocKey(chunks[i].metadata))
            >= CountBefore(chunks, i, DocKey(chunks[i].metadata)) + 1
  {
    if j > i + 1 {
      CountGrows(chunks, i, j - 1);
    }
  }

  /** The index of the last "#" of `s`, or -1 when it has none. */
  function LastHash(s: string): int
  {
    if |s| == 0 then -1
    else if s[|s| - 1] == '#' then |s| - 1
    else LastHash(s[..|s| - 1])
  }

  /** In `a + "#c" + x` with `x` free of "#", the last "#" is the marker. */
  lemma {:induction false} LastHashIsMarker(a: string, x: string)
    requires forall k :: 0 <= k < |x| ==> x[k] != '#'
    ensures LastHash(a + "#c" + x) == |a|
  {
    var s := a + "#c" + x;
    if |x| == 0 {
      assert s[..|s| - 1] == a + "#";
    } else {
      assert s[..|s| - 1] == a + "#c" + x[..|x| - 1];
      LastHashIsMarker(a, x[..|x| - 1]);
    }
  }

  /** An id splits uniquely at its last "#": the digits after "#c" hold no
      "#", so equal ids have equal documents and equal numbers. */
  lemma SplitAtMarker(a: string, x: string, b: string, y: string)
    requires forall k :: 0 <= k < |x| ==> x[k] != '#'
    requires forall k :: 0 <= k < |y| ==> y[k] != '#'
    requires a + "#c" + x == b + "#c" + y
    ensures a == b && x == y
  {
    var s := a + "#c" + x;
    LastHashIsMarker(a, x);
    LastHashIsMarker(b, y);
    assert a == s[..|a|];
    assert b == s[..|b|];
    assert x == s[|a| + 2..];
    assert y == (b + "#c" + y)[|b| + 2..];
  }

  /** Chunk ids are pairwise distinct when documents are uniformly named. */
  lemma ChunkIdsDistinct(chunks: seq<Document>, i: nat, j: nat)
    requires i < j < |chunks|
    requires UniformDocs(chunks)
    ensures ChunkId(chunks, i) != ChunkId(chunks, j)
  {
    var ki := DocKey(chunks[i].metadata);
    var kj := DocKey(chunks[j].metadata);
    var ni := CountBefore(chunks, i, ki);
    var nj := CountBefore(chunks, j, kj);
    if ChunkId(chunks, i) == ChunkId(chunks, j) {
      assert forall k :: 0 <= k < |NatToString(ni)| ==> NatToString(ni)[k] != '#';
      assert forall k :: 0 <= k < |NatToString(nj)| ==> NatToString(nj)[k] != '#';
      SplitAtMarker(Format(ki), NatToString(ni), Format(kj), NatToString(nj));
      NatToStringInjective(ni, nj);
      FormatInjective(ki, kj);
      CountGrows(chunks, i, j);
      assert false;
    }
  }
}
