/** The ingestion use case (use_cases/ingest_documents.py): load a PDF,
    split it into chunks and add them to the store, reporting how many
    pages were loaded and how many chunks were added. The loader and the
    splitter are library code and are oracles here. */
module Ingest {
  import opened Base
  import opened Config
  import opened VectorStore
  import Embeddings

  /** The text splitter's configuration. */
  datatype SplitterConfig = SplitterConfig(chunkSize: int, chunkOverlap: int, addStartIndex: bool)

  /** The one configuration ingestion uses. */
  const IngestSplitter: SplitterConfig := SplitterConfig(1000, 150, true)

  /** An ingestion object: its settings, its store and its splitter. */
  datatype Ingestor = Ingestor(settings: Settings, store: Store, splitter: SplitterConfig)

  /** The constructor: the given settings, else the environment's; a store
      on the configured directory and collection, not yet opened; and the
      fixed splitter, whatever the settings say. */
  function NewIngestor(settings: Option<Settings>, env: Settings): (r: Ingestor)
    ensures r.settings == settings.GetOr(env)
    ensures r.store == NewStore(r.settings.chromaDir, r.settings.chromaCollection)
    ensures r.splitter.chunkSize == 1000 && r.splitter.chunkOverlap == 150 && r.splitter.addStartIndex
  {
    var s := settings.GetOr(env);
    Ingestor(s, NewStore(s.chromaDir, s.chromaCollection), IngestSplitter)
  }

  /** `execute`: with no pages loaded, `(0, 0)` and nothing else happens;
      otherwise the pages are split once, the chunks are added, and the
      result is the number of pages and the number of chunks added. */
  function Execute(ig: Ingestor, env: Settings, filepath: string,
                   load: string -> seq<Document>,
                   split: (SplitterConfig, seq<Document>) -> seq<Document>): (r: (Ingestor, (nat, nat)))
    ensures |load(filepath)| == 0 ==> r == (ig, (0, 0))
    ensures |load(filepath)| > 0 ==>
              var chunks := split(ig.splitter, load(filepath));
              && r.1 == (|load(filepath)|, |chunks|)
              && r.0.store.added == ig.store.added + chunks
              && r.0 == ig.(store := AddDocuments(ig.store, env, chunks).0)
    ensures r.1.0 == 0 <==> |load(filepath)| == 0
  {
    var docs := load(filepath);
    if |docs| == 0 then (ig, (0, 0))
    else
      var chunks := split(ig.splitter, docs);
      var (store, added) := AddDocuments(ig.store, env, chunks);
      (ig.(store := store), (|docs|, added))
  }

  /** An empty load touches neither splitter nor store: the outcome is the
      same whatever they would do. */
  lemma EmptyLoadIgnoresSplitAndStore(ig: Ingestor, env1: Settings, env2: Settings, filepath: string,
                                      load: string -> seq<Document>,
                                      split1: (SplitterConfig, seq<Document>) -> seq<Document>,
                                      split2: (SplitterConfig, seq<Document>) -> seq<Document>)
    requires |load(filepath)| == 0
    ensures Execute(ig, env1, filepath, load, split1) == Execute(ig, env2, filepath, load, split2)
    ensures Execute(ig, env1, filepath, load, split1).0.store.vs == ig.store.vs
  {
  }

  /** A non-empty ingest leaves the store open, and a second ingest on the
      same object reuses the backend the first one opened; the collection
      then holds the first file's chunks followed by the second's. */
  lemma IngestOpensOnce(ig: Ingestor, env1: Settings, env2: Settings, f1: string, f2: string,
                        load: string -> seq<Document>,
                        split: (SplitterConfig, seq<Document>) -> seq<Document>)
    requires ig.store.vs.None?
    requires |load(f1)| > 0
    ensures var ig1 := Execute(ig, env1, f1, load, split).0;
            var ig2 := Execute(ig1, env2, f2, load, split).0;
            && ig1.store.vs == Some(Chroma(ig.store.collectionName, ig.store.persistDir, Embeddings.Build(env1)))
            && ig1.store.opens == ig.store.opens + 1
            && ig2.store.vs == ig1.store.vs && ig2.store.opens == ig1.store.opens
            && ig2.store.added == ig.store.added + split(ig.splitter, load(f1))
                                  + (if |load(f2)| > 0 then split(ig.splitter, load(f2)) else [])
  {
  }
}
