/** The Chroma-backed store (infrastructure/vectorstores/chroma_store.py):
    a holder that opens its backend lazily on first use and reuses it
    afterwards. The persisted collection and the search are library
    behaviour and are not modelled; the backend is modelled by the
    arguments it is opened with, and the collection's contents by the log of
    documents handed to it. */
module VectorStore {
  import opened Base
  import opened Config
  import opened Embeddings

  const DefaultCollection: string := "documents"
  const DefaultSearchType: string := "mmr"
  const DefaultK: int := 5

  /** An opened Chroma collection. */
  datatype Chroma = Chroma(collectionName: string, persistDir: string, embeddings: EmbeddingsBackend)

  /** A retriever over an opened collection. */
  datatype Retriever = Retriever(vs: Chroma, searchType: string, k: int)

  /** A store object: where it persists, its collection, its backend once
      opened, how many times it has opened one, and the documents it has
      handed to the collection, in order. */
  datatype Store = Store(persistDir: string, collectionName: string, vs: Option<Chroma>, opens: nat,
                         added: seq<Document>)

  /** The constructor records its arguments and opens nothing. */
  function NewStore(persistDir: string, collectionName: string := DefaultCollection): (s: Store)
    ensures s.persistDir == persistDir && s.collectionName == collectionName
    ensures s.vs.None? && s.opens == 0 && s.added == []
  {
    Store(persistDir, collectionName, None, 0, [])
  }

  /** The embeddings an open uses: a fresh provider object is built from
      `env`, the settings `Settings()` reads from the environment at that
      moment, so its empty cache is filled once. */
  function OpenEmbeddings(env: Settings): (e: EmbeddingsBackend)
    ensures e == Build(env)
  {
    Instance(NewProvider(env)).1
  }

  /** `_ensure_vs`: open on first use, reuse afterwards. Opening never
      changes where the store persists or which collection it names. */
  function EnsureVs(s: Store, env: Settings): (r: (Store, Chroma))
    ensures s.vs.Some? ==> r.0 == s && r.1 == s.vs.value
    ensures s.vs.None? ==> r.1 == Chroma(s.collectionName, s.persistDir, Build(env))
                           && r.0 == s.(vs := Some(r.1), opens := s.opens + 1)
  {
    match s.vs
    case Some(vs) => (s, vs)
    case None =>
      var vs := Chroma(s.collectionName, s.persistDir, OpenEmbeddings(env));
      (s.(vs := Some(vs), opens := s.opens + 1), vs)
  }

  /** `add_documents`: opens the backend if needed, hands the collection
      exactly the documents it was given, in order, after those added before,
      and reports their number. */
  function AddDocuments(s: Store, env: Settings, docs: seq<Document>): (r: (Store, nat))
    ensures r.1 == |docs|
    ensures r.0.added == s.added + docs
    ensures r.0 == EnsureVs(s, env).0.(added := s.added + docs)
  {
    var s1 := EnsureVs(s, env).0;
    (s1.(added := s1.added + docs), |docs|)
  }

  /** `as_retriever` (defaults "mmr" and 5): opens the backend if needed and
      passes the search type and `k` through unchanged. */
  function AsRetriever(s: Store, env: Settings, searchType: string := DefaultSearchType,
                       k: int := DefaultK): (r: (Store, Retriever))
    ensures r.0 == EnsureVs(s, env).0
    ensures r.1.vs == EnsureVs(s, env).1 && r.1.searchType == searchType && r.1.k == k
  {
    var (s1, vs) := EnsureVs(s, env);
    (s1, Retriever(vs, searchType, k))
  }

  /** The calls a store object can receive, each with the environment
      settings in force at that moment. */
  datatype StoreCall =
    | AddCall(env: Settings, docs: seq<Document>)
    | RetrieverCall(env: Settings, searchType: string, k: int)

  function Apply(s: Store, c: StoreCall): Store {
    match c
    case AddCall(env, docs) => AddDocuments(s, env, docs).0
    case RetrieverCall(env, st, k) => AsRetriever(s, env, st, k).0
  }

  function Run(s: Store, calls: seq<StoreCall>): Store
    decreases |calls|
  {
    if |calls| == 0 then s else Run(Apply(s, calls[0]), calls[1..])
  }

  /** The documents a sequence of calls hands to the collection, in order. */
  function AddedBy(calls: seq<StoreCall>): seq<Document>
    decreases |calls|
  {
    if |calls| == 0 then []
    else (if calls[0].AddCall? then calls[0].docs else []) + AddedBy(calls[1..])
  }

  /** The environment of a call. */
  function EnvOf(c: StoreCall): Settings {
    match c
    case AddCall(env, _) => env
    case RetrieverCall(env, _, _) => env
  }

  /** Over any sequence of calls the backend is opened at most once: a new
      store opens on the first call, with the embeddings chosen by that
      call's environment, and keeps that backend whatever the environment of
      later calls; an opened store is never reopened. Besides the backend,
      the only change is that the collection receives the documents of the
      add calls, in call order. */
  lemma {:induction false} OpensAtMostOnce(s: Store, calls: seq<StoreCall>)
    ensures s.vs.Some? ==> Run(s, calls) == s.(added := s.added + AddedBy(calls))
    ensures s.vs.None? && |calls| > 0 ==>
              Run(s, calls) == s.(vs := Some(Chroma(s.collectionName, s.persistDir, Build(EnvOf(calls[0])))),
                                  opens := s.opens + 1, added := s.added + AddedBy(calls))
    ensures s.vs.None? && |calls| == 0 ==> Run(s, calls) == s
    decreases |calls|
  {
    if |calls| > 0 {
      var s1 := Apply(s, calls[0]);
      assert s1.vs.Some?;
      assert s1.added == s.added + (if calls[0].AddCall? then calls[0].docs else []);
      OpensAtMostOnce(s1, calls[1..]);
      assert s.added + AddedBy(calls)
          == s.added + (if calls[0].AddCall? then calls[0].docs else []) + AddedBy(calls[1..]);
    }
  }
}
