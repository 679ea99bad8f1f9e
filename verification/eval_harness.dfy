/** The driver of the retrieval evaluation (`main` and its helpers in
    scripts/eval_retrieval.py): choose the candidate embedding models,
    give each its own collection, score every gold question against that
    collection and average the three metrics into one report row per model.

    Index rebuilding, PDF loading, printing and the CSV report file are I/O
    and are not modelled. Retrieval is an oracle
    `retrieve(embeddings, collection, question, k)` returning the ranked
    documents: the collection is rebuilt from the run's chunks with the
    model's own embeddings before it is queried, so what a query returns
    depends on both the embeddings and the collection. */
module EvalHarness {
  import opened Base
  import opened Text
  import opened Metrics
  import opened Gold
  import opened ChunkIds

  const ChunkSize: int := 1000
  const ChunkOverlap: int := 150
  const TopK: int := 5
  const DefaultOllamaUrl: string := "http://localhost:11434"
  const HfCacheFolder: string := ".hf_cache"
  const MissingChunkId: string := "unknown#c?"

  /** One entry of the `MODELS` table. */
  datatype ModelEntry = ModelEntry(tag: string, kind: string, model: string, baseUrl: Option<string>)

  /** The embedding backends the evaluation can build. */
  datatype EvalEmbeddings =
    | OllamaEmbeddings(model: string, baseUrl: string)
    | HuggingFaceEmbeddings(modelName: string, cacheFolder: string)

  datatype EvalError = NoModelsSelected | UnknownEmbeddingsType(kind: string)

  /** One row of the metrics report. */
  datatype ReportRow = ReportRow(
    tag: string, modelId: string,
    recall: real, mrr: real, ndcg: real,
    k: int, chunkSize: int, chunkOverlap: int)

  /** The configured candidates, in table order. */
  const Models: seq<ModelEntry> := [
    ModelEntry("generic_ollama", "ollama", "nomic-embed-text", Some(DefaultOllamaUrl)),
    ModelEntry("pubmed_sbiomed", "hf", "pritamdeka/S-Biomed-Roberta-snli-multinli-stsb", None),
    ModelEntry("bge_m3", "hf", "BAAI/bge-m3", None),
    ModelEntry("mpnet_multi", "hf", "sentence-transformers/paraphrase-multilingual-mpnet-base-v2", None)
  ]

  /** The configured tag filter; empty means every model. */
  const IncludeTags: seq<string> := []

  predicate Included(m: ModelEntry, tags: seq<string>) {
    |tags| == 0 || m.tag in tags
  }

  /** `[m for m in models if not tags or m["tag"] in tags]`. */
  function Keep(models: seq<ModelEntry>, tags: seq<string>): (r: seq<ModelEntry>)
    ensures |r| <= |models|
    ensures forall m :: m in r <==> m in models && Included(m, tags)
  {
    if |models| == 0 then []
    else
      var rest := Keep(models[1..], tags);
      assert forall m :: m in models <==> m == models[0] || m in models[1..];
      if Included(models[0], tags) then [models[0]] + rest else rest
  }

  /** Filtering keeps the order: the filter of a concatenation is the
      concatenation of the filters. */
  lemma {:induction false} KeepAppend(a: seq<ModelEntry>, b: seq<ModelEntry>, tags: seq<string>)
    ensures Keep(a + b, tags) == Keep(a, tags) + Keep(b, tags)
  {
    if |a| == 0 {
      assert a + b == b;
    } else {
      assert (a + b)[0] == a[0];
      assert (a + b)[1..] == a[1..] + b;
      KeepAppend(a[1..], b, tags);
    }
  }

  /** An empty tag list keeps every model. */
  lemma {:induction false} KeepAll(models: seq<ModelEntry>)
    ensures Keep(models, []) == models
  {
    if |models| > 0 {
      KeepAll(models[1..]);
    }
  }

  /** Model selection: the filtered table, or an error when nothing is
      left. */
  function SelectModels(models: seq<ModelEntry>, tags: seq<string>): (r: Result<seq<ModelEntry>, EvalError>)
    ensures r.Err? <==> forall m :: m in models ==> !Included(m, tags)
    ensures r.Err? ==> r.error == NoModelsSelected
    ensures r.Ok? ==> r.value == Keep(models, tags) && |r.value| > 0
  {
    var selected := Keep(models, tags);
    if |selected| == 0 then
      Err(NoModelsSelected)
    else
      assert selected[0] in selected;
      Ok(selected)
  }

  /** The isolated collection of one model: "eval_" followed by its tag. */
  function CollectionName(tag: string): (r: string)
    ensures |r| == |tag| + 5 && r[..5] == "eval_" && r[5..] == tag
  {
    "eval_" + tag
  }

  /** Distinct tags get distinct collections, so no two candidates share an
      index. */
  lemma CollectionNamesDistinct(a: string, b: string)
    requires a != b
    ensures CollectionName(a) != CollectionName(b)
  {
    assert CollectionName(a)[5..] == a;
    assert CollectionName(b)[5..] == b;
  }

  /** `build_embeddings`: the backend named by the entry's type. */
  function BuildEmbeddings(entry: ModelEntry): (r: Result<EvalEmbeddings, EvalError>)
    ensures entry.kind == "ollama" ==> r == Ok(OllamaEmbeddings(entry.model, entry.baseUrl.GetOr(DefaultOllamaUrl)))
    ensures entry.kind == "hf" ==> r == Ok(HuggingFaceEmbeddings(entry.model, HfCacheFolder))
    ensures entry.kind != "ollama" && entry.kind != "hf" ==> r == Err(UnknownEmbeddingsType(entry.kind))
  {
    if entry.kind == "ollama" then Ok(OllamaEmbeddings(entry.model, entry.baseUrl.GetOr(DefaultOllamaUrl)))
    else if entry.kind == "hf" then Ok(HuggingFaceEmbeddings(entry.model, HfCacheFolder))
    else Err(UnknownEmbeddingsType(entry.kind))
  }

  /** The value `retrieve_ids` reads for a document: its `chunk_id` entry
      as stored (a present `None` or number included), "unknown#c?" when the
      entry is absent. */
  function RawId(doc: Document): Value {
    Get(doc.metadata, ChunkIdKey, Str(MissingChunkId))
  }

  /** The id the metrics see for a document. A string is kept as it is;
      any other value becomes "", which is no gold id, just as a `None` or
      a number is in no set of strings. */
  function RankId(doc: Document): (r: string)
    ensures RawId(doc).Str? ==> r == RawId(doc).s
    ensures !RawId(doc).Str? ==> !CleanId(r)
  {
    match RawId(doc)
    case Str(s) => s
    case _ => ""
  }

  /** `retrieve_ids`: one id per retrieved document, in rank order. */
  function RetrievedIds(docs: seq<Document>): (r: seq<string>)
    ensures |r| == |docs|
    ensures forall i :: 0 <= i < |docs| ==>
              (RawId(docs[i]).Str? ==> r[i] == RawId(docs[i]).s)
              && (ChunkIdKey !in docs[i].metadata ==> r[i] == MissingChunkId)
              && (!RawId(docs[i]).Str? ==> !CleanId(r[i]))
  {
    seq(|docs|, i requires 0 <= i < |docs| => RankId(docs[i]))
  }

  /** Against a gold set of clean ids, which is what `ParseIds` yields, an
      id the metrics see is relevant exactly when the raw value the source
      compares is a relevant string. */
  lemma RankIdMembership(doc: Document, relevant: set<string>)
    requires forall x :: x in relevant ==> CleanId(x)
    ensures RankId(doc) in relevant <==> RawId(doc).Str? && RawId(doc).s in relevant
  {
    if !RawId(doc).Str? {
      assert !CleanId(RankId(doc));
    }
  }

  function Sum(xs: seq<real>): real
  {
    if |xs| == 0 then 0.0 else xs[0] + Sum(xs[1..])
  }

  /** `st.mean(xs) if xs else 0.0`. */
  function Mean(xs: seq<real>): (r: real)
    ensures |xs| == 0 ==> r == 0.0
    ensures |xs| > 0 ==> r * |xs| as real == Sum(xs)
  {
    if |xs| == 0 then 0.0 else Sum(xs) / |xs| as real
  }

  predicate InUnit(xs: seq<real>) {
    forall i :: 0 <= i < |xs| ==> 0.0 <= xs[i] <= 1.0
  }

  lemma {:induction false} SumBounds(xs: seq<real>)
    requires InUnit(xs)
    ensures 0.0 <= Sum(xs) <= |xs| as real
  {
    if |xs| > 0 {
      SumBounds(xs[1..]);
    }
  }

  /** The mean of scores in [0, 1] is in [0, 1]. */
  lemma MeanBounds(xs: seq<real>)
    requires InUnit(xs)
    ensures 0.0 <= Mean(xs) <= 1.0
  {
    if |xs| > 0 {
      SumBounds(xs);
      var n := |xs| as real;
      assert Sum(xs) / n <= n / n;
    }
  }

  lemma {:induction false} SumMonotone(xs: seq<real>, ys: seq<real>)
    requires |xs| == |ys|
    requires forall i :: 0 <= i < |xs| ==> xs[i] <= ys[i]
    ensures Sum(xs) <= Sum(ys)
  {
    if |xs| > 0 {
      SumMonotone(xs[1..], ys[1..]);
    }
  }

  /** Pointwise smaller scores have a smaller mean. */
  lemma MeanMonotone(xs: seq<real>, ys: seq<real>)
    requires |xs| == |ys|
    requires forall i :: 0 <= i < |xs| ==> xs[i] <= ys[i]
    ensures Mean(xs) <= Mean(ys)
  {
    SumMonotone(xs, ys);
    if |xs| > 0 {
      var n := |xs| as real;
      assert Sum(xs) / n <= Sum(ys) / n;
    }
  }

  /** Retrieval from the collection rebuilt with the given embeddings. */
  type Retrieval = (EvalEmbeddings, string, string, int) -> seq<Document>

  /** The ranked ids retrieved for gold case `i` from `collection`, indexed
      with `emb`. */
  function RankedFor(retrieve: Retrieval, emb: EvalEmbeddings, collection: string,
                     gold: seq<QueryCase>, i: nat): seq<string>
    requires i < |gold|
  {
    RetrievedIds(retrieve(emb, collection, gold[i].question, TopK))
  }

  /** The scoring loop of `main` for one model, plus the report row. Every
      mean lies in [0, 1] (NDCG's under a valid discount), mean MRR never
      exceeds mean recall, and the row records the model and the fixed run
      parameters. The scores come from the entry's own collection, indexed
      with the embeddings `emb` built for it. */
  function ScoreModel(entry: ModelEntry, emb: EvalEmbeddings, gold: seq<QueryCase>,
                      retrieve: Retrieval, d: int -> real): (row: ReportRow)
    ensures row.tag == entry.tag && row.modelId == entry.model
    ensures row.k == 5 && row.chunkSize == 1000 && row.chunkOverlap == 150
    ensures 0.0 <= row.recall <= 1.0 && 0.0 <= row.mrr <= row.recall
    ensures ValidDiscount(d) ==> 0.0 <= row.ndcg <= 1.0
  {
    var collection := CollectionName(entry.tag);
    var recalls := seq(|gold|, i requires 0 <= i < |gold| =>
                       Recall(RankedFor(retrieve, emb, collection, gold, i), gold[i].relevantIds, TopK));
    var mrrs := seq(|gold|, i requires 0 <= i < |gold| =>
                    Mrr(RankedFor(retrieve, emb, collection, gold, i), gold[i].relevantIds, TopK));
    var ndcgs := seq(|gold|, i requires 0 <= i < |gold| =>
                     Ndcg(RankedFor(retrieve, emb, collection, gold, i), gold[i].relevantIds, TopK, d));
    ScoreBounds(recalls, mrrs, ndcgs, emb, collection, gold, retrieve, d);
    ReportRow(entry.tag, entry.model, Mean(recalls), Mean(mrrs), Mean(ndcgs), TopK, ChunkSize, ChunkOverlap)
  }

  lemma ScoreBounds(recalls: seq<real>, mrrs: seq<real>, ndcgs: seq<real>, emb: EvalEmbeddings, collection: string,
                    gold: seq<QueryCase>, retrieve: Retrieval, d: int -> real)
    requires |recalls| == |mrrs| == |ndcgs| == |gold|
    requires forall i :: 0 <= i < |gold| ==>
               recalls[i] == Recall(RankedFor(retrieve, emb, collection, gold, i), gold[i].relevantIds, TopK)
    requires forall i :: 0 <= i < |gold| ==>
               mrrs[i] == Mrr(RankedFor(retrieve, emb, collection, gold, i), gold[i].relevantIds, TopK)
    requires forall i :: 0 <= i < |gold| ==>
               ndcgs[i] == Ndcg(RankedFor(retrieve, emb, collection, gold, i), gold[i].relevantIds, TopK, d)
    ensures 0.0 <= Mean(recalls) <= 1.0 && 0.0 <= Mean(mrrs) <= Mean(recalls)
    ensures ValidDiscount(d) ==> 0.0 <= Mean(ndcgs) <= 1.0
  {
    forall i | 0 <= i < |gold|
      ensures 0.0 <= mrrs[i] <= recalls[i] && 0.0 <= mrrs[i] <= 1.0
    {
      MrrAgreesWithRecall(RankedFor(retrieve, emb, collection, gold, i), gold[i].relevantIds, TopK);
    }
    MeanBounds(recalls);
    MeanBounds(mrrs);
    MeanMonotone(mrrs, recalls);
    if ValidDiscount(d) {
      MeanBounds(ndcgs);
    }
  }

  /** `main` without its I/O: select the models, then build each one's
      embeddings (an unknown type aborts the run) and score it. The report
      has one row per selected model, in selection order. */
  function RunEvaluation(models: seq<ModelEntry>, tags: seq<string>, gold: seq<QueryCase>,
                         retrieve: Retrieval, d: int -> real)
    : (r: Result<seq<ReportRow>, EvalError>)
    ensures SelectModels(models, tags).Err? ==> r == Err(NoModelsSelected)
    ensures SelectModels(models, tags).Ok? ==> r == ScoreAll(Keep(models, tags), gold, retrieve, d)
    ensures r.Ok? ==> var selected := Keep(models, tags);
                      && |r.value| == |selected| > 0
                      && forall i :: 0 <= i < |selected| ==>
                           BuildEmbeddings(selected[i]).Ok?
                           && r.value[i] == ScoreModel(selected[i], BuildEmbeddings(selected[i]).value, gold, retrieve, d)
  {
    match SelectModels(models, tags)
    case Err(e) => Err(e)
    case Ok(selected) => ScoreAll(selected, gold, retrieve, d)
  }

  /** The error of the first model whose embeddings cannot be built, if
      any: the point where `main`'s loop would stop. */
  function FirstBuildError(selected: seq<ModelEntry>): (r: Option<EvalError>)
    ensures r.None? <==> forall i :: 0 <= i < |selected| ==> BuildEmbeddings(selected[i]).Ok?
    ensures r.Some? ==> exists i :: 0 <= i < |selected| && BuildEmbeddings(selected[i]) == Err(r.value)
                                   && forall j :: 0 <= j < i ==> BuildEmbeddings(selected[j]).Ok?
  {
    if |selected| == 0 then None
    else
      var tail := selected[1..];
      assert forall i :: 0 < i < |selected| ==> tail[i - 1] == selected[i];
      match BuildEmbeddings(selected[0])
      case Err(e) => Some(e)
      case Ok(_) =>
        var rest := FirstBuildError(tail);
        if rest.Some? then
          FirstFailureShift(selected, rest.value);
          rest
        else rest
  }

  /** A first failure in the tail, after a head that builds, is the first
      failure of the whole list, one position later. */
  lemma FirstFailureShift(selected: seq<ModelEntry>, e: EvalError)
    requires |selected| > 0 && BuildEmbeddings(selected[0]).Ok?
    requires exists i :: 0 <= i < |selected[1..]| && BuildEmbeddings(selected[1..][i]) == Err(e)
                         && forall j :: 0 <= j < i ==> BuildEmbeddings(selected[1..][j]).Ok?
    ensures exists i :: 0 <= i < |selected| && BuildEmbeddings(selected[i]) == Err(e)
                        && forall j :: 0 <= j < i ==> BuildEmbeddings(selected[j]).Ok?
  {
    var tail := selected[1..];
    var i :| 0 <= i < |tail| && BuildEmbeddings(tail[i]) == Err(e)
             && forall j :: 0 <= j < i ==> BuildEmbeddings(tail[j]).Ok?;
    var k := i + 1;
    assert selected[k] == tail[i];
    forall j | 0 <= j < k ensures BuildEmbeddings(selected[j]).Ok? {
      if j > 0 {
        assert selected[j] == tail[j - 1];
      }
    }
  }

  function ScoreAll(selected: seq<ModelEntry>, gold: seq<QueryCase>,
                    retrieve: Retrieval, d: int -> real)
    : (r: Result<seq<ReportRow>, EvalError>)
    ensures r.Ok? <==> forall i :: 0 <= i < |selected| ==> BuildEmbeddings(selected[i]).Ok?
    ensures r.Ok? ==> |r.value| == |selected|
                      && forall i :: 0 <= i < |selected| ==>
                           r.value[i] == ScoreModel(selected[i], BuildEmbeddings(selected[i]).value, gold, retrieve, d)
    ensures r.Err? ==> exists i :: 0 <= i < |selected| && BuildEmbeddings(selected[i]) == Err(r.error)
                                   && forall j :: 0 <= j < i ==> BuildEmbeddings(selected[j]).Ok?
  {
    match FirstBuildError(selected)
    case Some(e) => Err(e)
    case None =>
      Ok(seq(|selected|, i requires 0 <= i < |selected| =>
        ScoreModel(selected[i], BuildEmbeddings(selected[i]).value, gold, retrieve, d)))
  }

  /** With the shipped configuration every model is evaluated. */
  lemma ShippedSelectionKeepsAll()
    ensures SelectModels(Models, IncludeTags) == Ok(Models)
  {
    KeepAll(Models);
  }
}
