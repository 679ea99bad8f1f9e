/** The RAG query use case (use_cases/query_rag.py): per-call overrides of
    the retriever settings, retrieval through the store, the mapping of
    documents to hits and to context snippets, and optional generation.
    The retriever's search and the chat call are oracles. The use case's
    settings object is shared state: the overrides of one call stay in
    force for later calls on the same object. */
module QueryRag {
  import opened Base
  import opened Config
  import opened VectorStore
  import opened Generation
  import Embeddings

  datatype RagHit = RagHit(content: string, metadata: Metadata)
  datatype RagResult = RagResult(answer: Option<string>, hits: seq<RagHit>)

  /** A use-case object: its (mutable) settings, its store and its chat
      backend. */
  datatype UseCase = UseCase(settings: Settings, store: Store, llm: LlmBackend)

  /** The constructor: the given settings, else those `Settings()` reads
      from the environment (`env`); a store on the configured directory and
      collection, not yet opened; and the backend the settings select,
      failing as `_build_llm` does. */
  function NewUseCase(settings: Option<Settings>, env: Settings, libs: Libraries): (r: Result<UseCase, LlmError>)
    ensures var s := settings.GetOr(env);
            && (r.Ok? <==> BuildLlm(s, libs).Ok?)
            && (r.Ok? ==> r.value.settings == s
                          && r.value.store == NewStore(s.chromaDir, s.chromaCollection)
                          && r.value.llm == BuildLlm(s, libs).value)
            && (r.Err? ==> r.error == BuildLlm(s, libs).error)
  {
    var s := settings.GetOr(env);
    var llm :- BuildLlm(s, libs);
    Ok(UseCase(s, NewStore(s.chromaDir, s.chromaCollection), llm))
  }

  /** `_to_hits`: one hit per document, in order, with its text and
      metadata. */
  function ToHits(docs: seq<Document>): (r: seq<RagHit>)
    ensures |r| == |docs|
    ensures forall i :: 0 <= i < |r| ==>
              r[i].content == docs[i].pageContent && r[i].metadata == docs[i].metadata
  {
    seq(|docs|, i requires 0 <= i < |docs| => RagHit(docs[i].pageContent, docs[i].metadata))
  }

  /** `_to_context`: one snippet per document, in order, with its text and
      metadata. */
  function ToContext(docs: seq<Document>): (r: seq<Snippet>)
    ensures |r| == |docs|
    ensures forall i :: 0 <= i < |r| ==> r[i].text == docs[i].pageContent && r[i].meta == docs[i].metadata
  {
    seq(|docs|, i requires 0 <= i < |docs| => Snippet(docs[i].pageContent, docs[i].metadata))
  }

  /** Hits and context carry the same pairs, so the answer is generated
      from exactly what the caller is shown. */
  lemma HitsMatchContext(docs: seq<Document>)
    ensures |ToHits(docs)| == |ToContext(docs)|
    ensures forall i :: 0 <= i < |docs| ==>
              ToHits(docs)[i].content == ToContext(docs)[i].text
              && ToHits(docs)[i].metadata == ToContext(docs)[i].meta
  {
  }

  /** The overrides: a given `k` replaces the setting, a non-empty search
      type replaces its setting (`None` and "" keep it); nothing else
      changes. */
  function Override(s: Settings, k: Option<int>, searchType: Option<string>): (r: Settings)
    ensures r.retrieverK == (if k.Some? then k.value else s.retrieverK)
    ensures r.retrieverSearchType == OrDefault(searchType, s.retrieverSearchType)
    ensures r == s.(retrieverK := r.retrieverK, retrieverSearchType := r.retrieverSearchType)
  {
    var s1 := if k.Some? then s.(retrieverK := k.value) else s;
    match searchType
    case Some(st) => if st != "" then s1.(retrieverSearchType := st) else s1
    case None => s1
  }

  /** `execute`: apply the overrides to the shared settings, retrieve with
      the resulting search type and `k` (`_retrieve`), and generate an
      answer only when asked. `env` is what `Settings()` reads when the
      store opens; `search` is the retriever's `invoke`. */
  function Execute(uc: UseCase, env: Settings, question: string, generate: bool,
                   k: Option<int>, searchType: Option<string>,
                   search: (Retriever, string) -> seq<Document>,
                   invoke: (LlmBackend, seq<Message>) -> string): (r: (UseCase, RagResult))
    ensures r.0.settings == Override(uc.settings, k, searchType)
    ensures r.0.llm == uc.llm
    ensures var (store, retriever) := AsRetriever(uc.store, env, r.0.settings.retrieverSearchType,
                                                  r.0.settings.retrieverK);
            var docs := search(retriever, question);
            && r.0.store == store
            && r.1.hits == ToHits(docs)
            && (generate ==> r.1.answer == Some(Generate(uc.llm, invoke, question, ToContext(docs))))
    ensures r.1.answer.None? <==> !generate
  {
    var settings := Override(uc.settings, k, searchType);
    var (store, retriever) := AsRetriever(uc.store, env, settings.retrieverSearchType, settings.retrieverK);
    var docs := search(retriever, question);
    var answer := if generate then Some(Generate(uc.llm, invoke, question, ToContext(docs))) else None;
    (UseCase(settings, store, uc.llm), RagResult(answer, ToHits(docs)))
  }

  /** Without `generate` the chat backend is never consulted: the result
      is the same whatever it would answer. */
  lemma NoGenerateNoInvoke(uc: UseCase, env: Settings, question: string,
                           k: Option<int>, searchType: Option<string>,
                           search: (Retriever, string) -> seq<Document>,
                           invoke1: (LlmBackend, seq<Message>) -> string,
                           invoke2: (LlmBackend, seq<Message>) -> string)
    ensures Execute(uc, env, question, false, k, searchType, search, invoke1)
            == Execute(uc, env, question, false, k, searchType, search, invoke2)
  {
  }

  /** The overrides persist: a later call without overrides on the same
      object retrieves with the `k` and search type of the earlier call. */
  lemma OverridesPersist(uc: UseCase, env1: Settings, env2: Settings, q1: string, q2: string,
                         g1: bool, g2: bool, k: int, searchType: string,
                         search: (Retriever, string) -> seq<Document>,
                         invoke: (LlmBackend, seq<Message>) -> string)
    requires searchType != ""
    ensures var uc1 := Execute(uc, env1, q1, g1, Some(k), Some(searchType), search, invoke).0;
            var uc2 := Execute(uc1, env2, q2, g2, None, None, search, invoke).0;
            && uc2.settings.retrieverK == k
            && uc2.settings.retrieverSearchType == searchType
            && uc2.settings == uc.settings.(retrieverK := k, retrieverSearchType := searchType)
  {
  }

  /** With the shipped defaults and no overrides, retrieval uses "mmr"
      and 5 over the store opened on first use. */
  lemma DefaultRetrieval(uc: UseCase, env: Settings, question: string, generate: bool,
                         search: (Retriever, string) -> seq<Document>,
                         invoke: (LlmBackend, seq<Message>) -> string)
    requires uc.settings == Defaults
    ensures var r := Execute(uc, env, question, generate, None, None, search, invoke);
            var retriever := AsRetriever(uc.store, env).1;
            && retriever.searchType == "mmr" && retriever.k == 5
            && r.1.hits == ToHits(search(retriever, question))
  {
  }

  /** Two calls on a fresh object open the store once, on the first call,
      with the embeddings the first call's environment selects. */
  lemma StoreOpenedOnce(uc: UseCase, env1: Settings, env2: Settings, q1: string, q2: string,
                        g1: bool, g2: bool, k1: Option<int>, k2: Option<int>,
                        st1: Option<string>, st2: Option<string>,
                        search: (Retriever, string) -> seq<Document>,
                        invoke: (LlmBackend, seq<Message>) -> string)
    requires uc.store.vs.None?
    ensures var uc1 := Execute(uc, env1, q1, g1, k1, st1, search, invoke).0;
            var uc2 := Execute(uc1, env2, q2, g2, k2, st2, search, invoke).0;
            && uc2.store == uc1.store
            && uc2.store.opens == uc.store.opens + 1
            && uc2.store.vs == Some(Chroma(uc.store.collectionName, uc.store.persistDir, Embeddings.Build(env1)))
  {
  }

  /** The per-request overrides the comment of `execute` announces: the
      same retrieval and answer as `Execute` for this call, but the
      object's settings are left as they were. */
  function ExecuteLocal(uc: UseCase, env: Settings, question: string, generate: bool,
                        k: Option<int>, searchType: Option<string>,
                        search: (Retriever, string) -> seq<Document>,
                        invoke: (LlmBackend, seq<Message>) -> string): (r: (UseCase, RagResult))
    ensures r.0.settings == uc.settings && r.0.llm == uc.llm
    ensures var written := Execute(uc, env, question, generate, k, searchType, search, invoke);
            r.1 == written.1 && r.0.store == written.0.store
  {
    var (uc1, result) := Execute(uc, env, question, generate, k, searchType, search, invoke);
    (uc1.(settings := uc.settings), result)
  }

  /** With local overrides a later call without overrides retrieves with
      the object's own settings again, whatever the earlier call asked. */
  lemma LocalOverridesDoNotLeak(uc: UseCase, env1: Settings, env2: Settings, q1: string, q2: string,
                                g1: bool, g2: bool, k: Option<int>, searchType: Option<string>,
                                search: (Retriever, string) -> seq<Document>,
                                invoke: (LlmBackend, seq<Message>) -> string)
    ensures var uc1 := ExecuteLocal(uc, env1, q1, g1, k, searchType, search, invoke).0;
            var uc2 := Execute(uc1, env2, q2, g2, None, None, search, invoke).0;
            && uc2.settings.retrieverK == uc.settings.retrieverK
            && uc2.settings.retrieverSearchType == uc.settings.retrieverSearchType
  {
  }

  /** As written, one call's `k` leaks into the next: after a call with
      `k = 3`, a call without overrides on a default-configured object
      retrieves 3 documents, not the configured 5. */
  lemma OverrideLeaksIntoNextCall(uc: UseCase, env: Settings, q1: string, q2: string,
                                  search: (Retriever, string) -> seq<Document>,
                                  invoke: (LlmBackend, seq<Message>) -> string)
    requires uc.settings == Defaults
    ensures var uc1 := Execute(uc, env, q1, false, Some(3), None, search, invoke).0;
            var uc2 := Execute(uc1, env, q2, false, None, None, search, invoke).0;
            uc2.settings.retrieverK == 3 != Defaults.retrieverK
  {
  }
}
