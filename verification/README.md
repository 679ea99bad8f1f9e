# rag-fastapi-lc core, modelled in Dafny

This project models the pure logic of a retrieval-augmented-generation
service built on LangChain, Chroma and FastAPI, and proves properties of it.
The LangChain, Chroma and model-server libraries are not modelled. Each call
into them is a function-typed parameter (an oracle), or it is represented by
the constructor arguments the code passes.

The project has one Dafny module per component:

- `Base`: `Option`, `Result`, metadata values and documents.
- `Text`: the Python string operations used: `strip`, `split`, `join`, `lower`, prefix slicing and integer rendering.
- `Metrics`: Recall@K, MRR@K and NDCG@K from the evaluation script.
- `ChunkIds`: the chunk-id stamping pass.
- `Gold`: gold-set row parsing.
- `EvalHarness`: model selection, collection naming, per-model scoring and averaging.
- `Config`: the settings record and its defaults.
- `Embeddings`: embeddings backend choice and the per-object `instance` cache.
- `VectorStore`: the lazily opened Chroma store.
- `Generation`: LLM backend choice and prompt assembly.
- `QueryRag`: the RAG query use case.
- `Ingest`: the ingestion use case.
- `Echo`: the echo chain.

NDCG's discount `1/log2(i)` is abstracted as a weight `d`. `d` is positive and
non-increasing on positive ranks, with `d(1) = d(2) = 1`
(`Metrics.ValidDiscount`). The NDCG bounds are proved for every such weight,
so they are rearrangement facts, not floating-point facts.

Where the program's docstrings, comments or defaults suggest otherwise, the model follows the code:

- An unknown embeddings provider tag silently selects the fake backend. It does not raise a configuration error.
- The embeddings cache lives on each provider object, not on the process. The store creates a new provider object each time it opens.
- The query use case writes its `k` and `search_type` overrides into its settings object, where they persist (see Findings).

## Model

| member | source | states |
|---|---|---|
| Metrics.PrefixSlice | scripts/eval_retrieval.py:116 | Python's `list[:k]`: a prefix of the list; `k` items when `0 <= k <= len`; the whole list when `k` is larger; for negative `k`, all but the last `-k` items |
| Metrics.AnyIn | scripts/eval_retrieval.py:117 | `any(r in relevant for r in top)` holds exactly when some id of the list is in the gold set |
| Metrics.Recall | scripts/eval_retrieval.py:115-117 | Recall@K is 0 or 1, and it is 1 exactly when some id among the first k ranked ids is relevant |
| Metrics.ReciprocalRankFrom | scripts/eval_retrieval.py:121-124 | the `enumerate(start=1)` scan gives 0 when no id is relevant, and `1/(p+1)` at the first relevant 0-based position p |
| Metrics.Mrr | scripts/eval_retrieval.py:120-124 | MRR@K is `1/i` for the smallest 1-based rank i in the top k whose id is relevant, and 0 when there is none |
| Metrics.MrrAgreesWithRecall | scripts/eval_retrieval.py:115-124 | for the same inputs, MRR@K lies in [0,1], is positive exactly when Recall@K is 1, and never exceeds Recall@K |
| Metrics.FirstRelevant | scripts/eval_retrieval.py:121-123 | when some id is relevant there is a first relevant position, and every id before it is irrelevant |
| Metrics.EmptyTopScoresZero | scripts/eval_retrieval.py:115-124 | an empty ranking or `k = 0` scores 0 on Recall@K and MRR@K |
| Metrics.Dcg | scripts/eval_retrieval.py:130-135 | the inner `dcg`: each relevant id adds the weight of its 1-based rank, an irrelevant one adds nothing; DcgAppend, DcgOfRelevant and DcgOfIrrelevant state how it splits over a list |
| Metrics.Relevant | scripts/eval_retrieval.py:137 | the relevant ids of a list: no more than the list holds, every kept id relevant |
| Metrics.SplitIsPermutation | scripts/eval_retrieval.py:137 | the relevant and irrelevant parts of a list together hold exactly its ids, with multiplicity |
| Metrics.Irrelevant | scripts/eval_retrieval.py:137 | the irrelevant ids of a list: no more than the list holds, no kept id relevant |
| Metrics.IdealOrder | scripts/eval_retrieval.py:137 | the stable `sorted(rel, reverse=True)` of the gains as an order on ids: the relevant ids in list order, then the others in list order; IdealOrderIsRelevantFirstPermutation states it is a relevance-first permutation |
| Metrics.IdealOrderIsRelevantFirstPermutation | scripts/eval_retrieval.py:137 | the stable descending sort on relevance is a permutation of the truncated top-k list that puts every relevant id before every irrelevant one |
| Metrics.RelevantFirstIsIdeal | scripts/eval_retrieval.py:137 | a top-k list that is already relevance-first is its own ideal ordering |
| Metrics.Ndcg | scripts/eval_retrieval.py:127-139 | for every valid discount, NDCG@K lies in [0,1], and it is 0 exactly when no top-k id is relevant; the ideal gain is then 0 and no division happens; an empty gold set is included |
| Metrics.NdcgFacts | scripts/eval_retrieval.py:137-139 | the ideal DCG is never below the actual DCG; both are non-negative; the ideal DCG is positive exactly when some top-k id is relevant |
| Metrics.NdcgOfIdealRanking | scripts/eval_retrieval.py:137-139 | NDCG@K is exactly 1 when the top-k list holds a relevant id and every relevant id precedes every irrelevant one |
| Metrics.DcgAppend | scripts/eval_retrieval.py:130-135 | the DCG of a concatenation is the DCG of the first part plus the DCG of the second part at shifted ranks |
| Metrics.DcgOfRelevant | scripts/eval_retrieval.py:130-135 | a run of relevant ids contributes the full weight of each of its ranks |
| Metrics.DcgOfIrrelevant | scripts/eval_retrieval.py:130-135 | a run of irrelevant ids contributes nothing |
| Metrics.DcgIdeal | scripts/eval_retrieval.py:137 | the ideal ordering's DCG is the weight sum of the first r ranks, where r is the number of relevant ids |
| Metrics.DcgNonNegative | scripts/eval_retrieval.py:130-135 | DCG with a valid discount is never negative |
| Metrics.DcgBound | scripts/eval_retrieval.py:137-139 | the rearrangement step: any ordering's DCG is at most the weight of the first r ranks, r being the number of relevant ids |
| Metrics.DcgPositive | scripts/eval_retrieval.py:139 | DCG is positive as soon as one id is relevant |
| Metrics.WeightSumShift | scripts/eval_retrieval.py:134 | with a non-increasing discount, moving a block of ranks one step later never increases its weight |
| Metrics.WeightSumPositive | scripts/eval_retrieval.py:134 | a non-empty block of positive ranks has positive weight |
| Metrics.RelevantCount | scripts/eval_retrieval.py:137 | the relevant part of a list is non-empty exactly when some id is relevant |
| Metrics.NoRelevantMeansEmpty | scripts/eval_retrieval.py:137 | a list without relevant ids has an empty relevant part |
| Metrics.NoneRelevantAfter | scripts/eval_retrieval.py:137 | in a relevance-first list that starts with an irrelevant id, nothing after it is relevant |
| Base.Get | scripts/eval_retrieval.py:88 | `dict.get`: the stored value when the key is present, whatever it is, and the default only when it is absent |
| ChunkIds.DocKey | scripts/eval_retrieval.py:88 | a chunk's document is its `doc_id`, else its `source`, else "unknown.pdf"; a present key wins even when its value is `None` |
| ChunkIds.Format | scripts/eval_retrieval.py:90 | the f-string rendering of a document key: a string as itself, an integer in decimal, `None` as "None" |
| ChunkIds.FormatInjective | scripts/eval_retrieval.py:90 | two string keys, or two integer keys, that render alike are the same key |
| ChunkIds.CountBefore | scripts/eval_retrieval.py:89-91 | the reference for the counter map: how many of the first n chunks belong to a document, never more than n |
| ChunkIds.ChunkId | scripts/eval_retrieval.py:88-90 | the reference id of chunk i: its rendered document, "#c", and the number of earlier chunks of that document; CountersStep ties the loop to it |
| ChunkIds.ChunkIdSplits | scripts/eval_retrieval.py:90 | an id reads back at its last "#": the rendered document before it, then "c" and the counter |
| ChunkIds.StampPrefix | scripts/eval_retrieval.py:87-91 | the output of the first n loop steps, one stamped chunk per step |
| ChunkIds.StampChunkIds | scripts/eval_retrieval.py:86-92 | stamping keeps chunk count, order and text; chunk i gets `doc + "#c" + n`, where n counts the earlier chunks of the same document from 0; ids are pairwise distinct when documents are all named by strings or all by integers |
| ChunkIds.CountersStep | scripts/eval_retrieval.py:88-91 | the counter read for a chunk is the number of earlier chunks of its document, so it yields the chunk's id, and bumping it keeps every document's counter equal to its chunk count so far |
| ChunkIds.StampedAll | scripts/eval_retrieval.py:86-92 | after the whole loop every chunk carries its own id, and the ids are distinct when documents are all named by strings or all by integers |
| ChunkIds.StampPrefixAt | scripts/eval_retrieval.py:87-91 | every chunk of the first n processed by the loop carries its own document-and-counter id |
| ChunkIds.StampedIdsDistinct | scripts/eval_retrieval.py:86-92 | chunks stamped with their ids never share an id when every document is named by a string, or every one by an integer |
| ChunkIds.CountGrows | scripts/eval_retrieval.py:89-91 | a later chunk of the same document has seen strictly more chunks of that document, so its counter is strictly larger |
| ChunkIds.LastHashIsMarker | scripts/eval_retrieval.py:90 | in `doc + "#c" + digits`, the last "#" is the marker |
| ChunkIds.SplitAtMarker | scripts/eval_retrieval.py:90 | equal ids have equal documents and equal counters |
| ChunkIds.ChunkIdsDistinct | scripts/eval_retrieval.py:88-91 | two different chunks never get the same id when documents are all named by strings or all by integers |
| Text.SkipSpaces | scripts/eval_retrieval.py:108 | the first non-whitespace index at or after i, with only whitespace skipped |
| Text.SkipSpacesBack | scripts/eval_retrieval.py:108 | the smallest end such that only whitespace lies between it and j |
| Text.Strip | scripts/eval_retrieval.py:108-109 | `str.strip` returns a contiguous piece of its input; only whitespace is cut on either side; the piece neither starts nor ends with whitespace |
| Text.StripOffset | scripts/eval_retrieval.py:108-109 | the stripped string sits at a definite offset inside its input |
| Text.StripIdempotent | scripts/eval_retrieval.py:108-109 | stripping a stripped string changes nothing |
| Text.Split | scripts/eval_retrieval.py:108 | `str.split(";")` gives one more piece than there are separators, and no piece contains the separator |
| Text.JoinSplit | scripts/eval_retrieval.py:108 | re-joining the pieces of a split with the separator gives back the original string |
| Text.Join | infrastructure/llm/langchain_llm_provider.py:62-64 | `sep.join`: the items in order with one separator between neighbours; JoinSnoc, JoinSplit and JoinLength state this item by item |
| Text.JoinSnoc | infrastructure/llm/langchain_llm_provider.py:62-64 | joining one more item appends the separator and that item |
| Text.ItemInJoin | infrastructure/llm/langchain_llm_provider.py:62-64 | every item occurs in the join |
| Text.JoinLength | infrastructure/llm/langchain_llm_provider.py:62-64 | a join is as long as its items plus one separator between each neighbouring pair; ContextBlockBounded uses it to bound the prompt |
| Text.Lower | infrastructure/llm/langchain_llm_provider.py:33 | lower-casing keeps the length and leaves no ASCII capital |
| Text.NatToString | scripts/eval_retrieval.py:90 | a counter renders as at least one decimal digit, with no leading zero |
| Text.ParseNatToString | scripts/eval_retrieval.py:90 | reading the rendering back gives the number |
| Text.NatToStringInjective | scripts/eval_retrieval.py:90 | distinct counters render differently |
| Text.IntToString | infrastructure/llm/langchain_llm_provider.py:66 | an integer renders with a leading minus exactly when it is negative |
| Text.IntToStringInjective | scripts/eval_retrieval.py:90 | distinct integers render differently, so integer document keys give distinct chunk ids |
| Text.Take | infrastructure/llm/langchain_llm_provider.py:63 | `t[:n]` is the prefix of length n, or all of t when it is shorter |
| Gold.ParseIds | scripts/eval_retrieval.py:108 | every id parsed from a gold field is non-empty, free of surrounding whitespace and free of ";"; ParseJoinedIds states which ids a field yields |
| Gold.PiecesAreClean | scripts/eval_retrieval.py:108 | stripping the non-blank pieces of a split leaves only clean ids |
| Gold.StripIsPiece | scripts/eval_retrieval.py:108 | a stripped piece holds no character its source does not |
| Gold.ParseJoinedIds | scripts/eval_retrieval.py:108 | a field made of any ";"-free pieces yields exactly those pieces stripped, with the pieces that strip to "" dropped (so "a; b;;c" gives a, b and c); clean ids read back as exactly themselves |
| Gold.SplitJoin | scripts/eval_retrieval.py:108 | splitting a join of separator-free pieces gives the pieces back |
| Gold.SplitNoSeparator | scripts/eval_retrieval.py:108 | a string without the separator splits into itself alone |
| Gold.SplitAfterPiece | scripts/eval_retrieval.py:108 | splitting `a + ";" + t` gives `a` and then the pieces of `t` |
| Gold.BlankFieldHasNoIds | scripts/eval_retrieval.py:108 | an empty field, or one of only whitespace and separators, gives the empty gold set |
| Gold.BlankPiece | scripts/eval_retrieval.py:108 | every piece of a blank field strips to "" |
| Gold.PieceCharsInJoin | scripts/eval_retrieval.py:108 | a piece's characters all occur in the joined field |
| Gold.ParseRow | scripts/eval_retrieval.py:107-109 | a missing ids column and a missing question column are KeyErrors, checked in that order; a `None` question fails on `strip`; a row with both columns and a present question always parses, to the stripped question and the parsed ids, with a `None` ids field read as "" |
| Gold.ParseRows | scripts/eval_retrieval.py:107-109 | parsing succeeds exactly when every row parses; the cases are the rows' cases in file order; on failure, the error is that of the first failing row |
| Gold.LoadGold | scripts/eval_retrieval.py:102-112 | a missing file is an error; a failing row ends the load with that row's error; a file without rows is an error; otherwise there is one case per row, in order |
| EvalHarness.Keep | scripts/eval_retrieval.py:230 | the selected models are exactly those of the table that the filter admits |
| EvalHarness.KeepAppend | scripts/eval_retrieval.py:230 | filtering commutes with concatenation, so table order is preserved |
| EvalHarness.KeepAll | scripts/eval_retrieval.py:230 | an empty tag filter keeps every model |
| EvalHarness.SelectModels | scripts/eval_retrieval.py:230-232 | selection fails exactly when no model is admitted; otherwise it yields the filtered table, which is non-empty |
| EvalHarness.ShippedSelectionKeepsAll | scripts/eval_retrieval.py:230 | with the shipped empty filter, all four configured models are evaluated |
| EvalHarness.CollectionName | scripts/eval_retrieval.py:253 | the collection is "eval_" followed by the tag |
| EvalHarness.CollectionNamesDistinct | scripts/eval_retrieval.py:253 | distinct tags get distinct collections |
| EvalHarness.BuildEmbeddings | scripts/eval_retrieval.py:170-178 | an "ollama" entry gets its base URL or the localhost default; an "hf" entry uses the ".hf_cache" folder; any other type is an error |
| EvalHarness.RankId | scripts/eval_retrieval.py:165 | a string `chunk_id` (or the "unknown#c?" default of an absent one) is kept as it is; a present `None` or number becomes an id that is no valid gold id |
| EvalHarness.RetrievedIds | scripts/eval_retrieval.py:163-166 | one id per retrieved document, in rank order: a string `chunk_id` as it is, "unknown#c?" when the entry is absent, and a non-gold id for a present non-string value |
| EvalHarness.RankIdMembership | scripts/eval_retrieval.py:115-139 | against any gold set that `ParseIds` can yield, an id the metrics see is relevant exactly when the raw `chunk_id` value the source compares is a relevant string |
| EvalHarness.SumBounds | scripts/eval_retrieval.py:273-275 | the sum of n scores in [0,1] lies in [0,n] |
| EvalHarness.Mean | scripts/eval_retrieval.py:273-275 | `st.mean(xs) if xs else 0.0`: 0 for no scores, otherwise the value that times the count gives the sum |
| EvalHarness.MeanBounds | scripts/eval_retrieval.py:273-275 | the mean of scores in [0,1] lies in [0,1] |
| EvalHarness.SumMonotone | scripts/eval_retrieval.py:273-275 | a pointwise smaller list has a smaller sum |
| EvalHarness.MeanMonotone | scripts/eval_retrieval.py:273-275 | a pointwise smaller list has a smaller mean |
| EvalHarness.ScoreModel | scripts/eval_retrieval.py:251-279 | the cases are retrieved from the model's own collection, rebuilt with that model's embeddings; a report row carries the model's tag and id, k = 5, chunk size 1000 and overlap 150; its mean recall lies in [0,1]; its mean MRR lies between 0 and the mean recall; its mean NDCG lies in [0,1] |
| EvalHarness.ScoreBounds | scripts/eval_retrieval.py:261-275 | averaging per-question scores keeps 0 <= MRR <= Recall <= 1 and NDCG within [0,1] |
| EvalHarness.FirstBuildError | scripts/eval_retrieval.py:247-251 | the loop stops exactly when some selected model's embeddings cannot be built, and the error it stops with is that of the first model that fails, every model before it building |
| EvalHarness.ScoreAll | scripts/eval_retrieval.py:247-280 | scoring succeeds exactly when every selected model's embeddings can be built, giving one row per model in selection order, each that model's score under its own built embeddings; a failure carries the build error of the first selected model that fails |
| EvalHarness.RunEvaluation | scripts/eval_retrieval.py:228-280 | an empty selection aborts the run; otherwise the run is exactly ScoreAll over the selected models: it fails exactly when some selected model's embeddings cannot be built, and otherwise has one row per selected model, in order, each that model's score; the gold cases and the retrieval oracle are inputs, so gold loading (line 242) and PDF loading and chunk stamping (lines 235-236) are not composed here |
| Config.OrDefault | infrastructure/llm/langchain_llm_provider.py:33-34 | Python's `value or default`: the value unless it is missing or empty |
| Embeddings.Build | infrastructure/embeddings/provider.py:29-40 | the lower-cased tag, with missing or empty read as "fake": "openai" and "ollama" select those backends with the model (missing or empty read as "fake"); every other tag, unknown ones included, selects the fake backend of dimension 1536 |
| Embeddings.OllamaFallbackUnreachable | infrastructure/embeddings/provider.py:31-37 | an ollama backend uses "nomic-embed-text" only when the settings name it, so the fallback is unreachable |
| Embeddings.BuildIgnoresCase | infrastructure/embeddings/provider.py:30 | a tag and its lower-cased form select the same backend |
| Embeddings.NewProvider | infrastructure/embeddings/provider.py:18-21 | a new provider object starts with no cached backend |
| Embeddings.Instance | infrastructure/embeddings/provider.py:23-27 | `instance` builds from the provider's settings on the first read and caches the result; later reads return the cached backend without building |
| Embeddings.BuildsAtMostOnce | infrastructure/embeddings/provider.py:23-27 | over any number of reads, a provider builds at most once, and every read returns the backend its settings select |
| VectorStore.NewStore | infrastructure/vectorstores/chroma_store.py:7-10 | construction records the directory and the collection (default "documents"), opens nothing and has added nothing |
| VectorStore.OpenEmbeddings | infrastructure/vectorstores/chroma_store.py:14 | each open builds a fresh provider from the environment settings, so its embeddings are those the environment selects |
| VectorStore.EnsureVs | infrastructure/vectorstores/chroma_store.py:12-20 | the first use opens a backend on the store's collection and directory; a store already open returns its backend unchanged |
| VectorStore.AddDocuments | infrastructure/vectorstores/chroma_store.py:22-25 | `add_documents` triggers the lazy open, hands the collection exactly the given documents in order after those added before, and returns their number |
| VectorStore.AsRetriever | infrastructure/vectorstores/chroma_store.py:27-28 | `as_retriever` triggers the lazy open and passes the search type and k through unchanged (defaults "mmr" and 5) |
| VectorStore.OpensAtMostOnce | infrastructure/vectorstores/chroma_store.py:12-28 | over any sequence of add and retriever calls, a store opens at most once, on the first call, with that call's environment; it is never reopened, and otherwise the collection only receives the add calls' documents, in call order |
| Generation.LlmModel | infrastructure/llm/langchain_llm_provider.py:34 | the model name is never empty: "fake" when unset |
| Generation.BuildLlm | infrastructure/llm/langchain_llm_provider.py:32-48 | "openai" and "ollama" select those chat backends, with the model and temperature (0.0 when unset), exactly when their library is installed; they raise exactly when it is missing |
| Generation.FakeIffUnknownTag | infrastructure/llm/langchain_llm_provider.py:37-48 | the fake chat backend is chosen exactly for tags that name neither real backend |
| Generation.BuildLlmIgnoresCase | infrastructure/llm/langchain_llm_provider.py:33 | a tag and its lower-cased form select the same chat backend |
| Generation.DefaultsAreFake | app/settings.py:25-27 | the shipped defaults select the fake chat backend |
| Generation.Window | infrastructure/llm/langchain_llm_provider.py:56 | `context_snippets[:10]` keeps the first ten snippets, or all of them when there are fewer |
| Generation.TextsOf | infrastructure/llm/langchain_llm_provider.py:57 | one text per snippet, in order |
| Generation.PageValuesMembers | infrastructure/llm/langchain_llm_provider.py:58-60 | a page number is collected exactly when some snippet carries it as its page |
| Generation.PageValues | infrastructure/llm/langchain_llm_provider.py:57-60 | the collected page numbers, at most one per snippet, in snippet order; PageValuesMembers says which |
| Generation.CollectContext | infrastructure/llm/langchain_llm_provider.py:53-60 | the loop collects the texts of the first ten snippets in order, and their integer pages in order |
| Generation.SortedParts | infrastructure/llm/langchain_llm_provider.py:66 | the tail of a strictly ascending list is strictly ascending and every later value exceeds the head |
| Generation.SortedCons | infrastructure/llm/langchain_llm_provider.py:66 | a value below every value of a strictly ascending list can be put in front of it, keeping it strictly ascending |
| Generation.Insert | infrastructure/llm/langchain_llm_provider.py:66 | inserting into a strictly ascending list keeps it strictly ascending and adds exactly the new value |
| Generation.SortedUnique | infrastructure/llm/langchain_llm_provider.py:66 | `sorted(set(pages))` is strictly ascending and holds exactly the values of its input |
| Generation.SortedIsCanonical | infrastructure/llm/langchain_llm_provider.py:66 | two strictly ascending lists with the same values are equal, so the page list is determined by the page set |
| Generation.NoPagesIff | infrastructure/llm/langchain_llm_provider.py:65-69 | the page line is the "(não informadas)" text exactly when no page was collected |
| Generation.RenderList | infrastructure/llm/langchain_llm_provider.py:66 | the `str` of a list of integers: bracketed, comma-and-space separated |
| Generation.PageLine | infrastructure/llm/langchain_llm_provider.py:65-69 | the pages line: the sorted distinct pages when any were found, else the "não informadas" line; NoPagesIff and PageLineDependsOnSet state its two properties |
| Generation.PageLineDependsOnSet | infrastructure/llm/langchain_llm_provider.py:65-69 | the page line depends only on the set of pages: order and repetition do not matter |
| Generation.Truncated | infrastructure/llm/langchain_llm_provider.py:63 | each text is cut to its first 1200 characters |
| Generation.ContextBlock | infrastructure/llm/langchain_llm_provider.py:62-64 | the block starts with the fixed header, and with no snippets it is the header alone |
| Generation.ContextBlockSnoc | infrastructure/llm/langchain_llm_provider.py:62-64 | each further snippet appends the separator and its truncated text, so texts appear in input order |
| Generation.ContextBlockBounded | infrastructure/llm/langchain_llm_provider.py:56-64 | however long the retrieved texts, the context block of at most ten snippets is at most ten 1200-character texts and nine separators past the header |
| Generation.ShortTextKept | infrastructure/llm/langchain_llm_provider.py:63 | a text of at most 1200 characters appears unchanged |
| Generation.UserMessage | infrastructure/llm/langchain_llm_provider.py:65-78 | the human message starts with the pages line and a blank line, and ends with the question verbatim |
| Generation.SnippetInMessage | infrastructure/llm/langchain_llm_provider.py:56-64 | the first 1200 characters of each of the first ten snippets occur in the message; a text of at most 1200 characters occurs whole |
| Generation.OnlyFirstTenMatter | infrastructure/llm/langchain_llm_provider.py:56 | snippets after the tenth never change the message |
| Generation.QuestionRecoverable | infrastructure/llm/langchain_llm_provider.py:78 | for the same snippets, different questions give different messages |
| Generation.Messages | infrastructure/llm/langchain_llm_provider.py:71-79 | exactly two messages are sent: the fixed system prompt, then the assembled human message |
| Generation.Generate | infrastructure/llm/langchain_llm_provider.py:50-81 | the fake backend answers "This is a fake LLM answer." whatever the question and context; a real backend is asked with the two messages |
| QueryRag.NewUseCase | use_cases/query_rag.py:21-27 | the use case takes the given settings or the environment's; it gets a store on the configured directory and collection, not yet opened; it fails exactly when the chat backend cannot be built |
| QueryRag.ToHits | use_cases/query_rag.py:37-38 | one hit per document, in retrieval order, with its text and metadata |
| QueryRag.ToContext | use_cases/query_rag.py:40-41 | one snippet per document, in retrieval order, with its text and metadata |
| QueryRag.HitsMatchContext | use_cases/query_rag.py:37-41 | the answer is generated from exactly the pairs the caller is shown as hits |
| QueryRag.Override | use_cases/query_rag.py:52-55 | a given k replaces the setting; a non-empty search type replaces its setting, while `None` and "" keep it; nothing else changes |
| QueryRag.Execute | use_cases/query_rag.py:43-64 | the overrides are written into the settings; retrieval uses the resulting search type and k; the hits come from the retrieved documents; the answer is absent exactly when `generate` is false, and otherwise it is generated from those documents' context |
| QueryRag.NoGenerateNoInvoke | use_cases/query_rag.py:60-62 | without `generate` the result does not depend on the chat backend at all |
| QueryRag.OverridesPersist | use_cases/query_rag.py:52-55 | a later call without overrides retrieves with the earlier call's k and search type |
| QueryRag.DefaultRetrieval | use_cases/query_rag.py:29-33 | with the shipped settings and no overrides, retrieval uses "mmr" and 5 |
| QueryRag.StoreOpenedOnce | use_cases/query_rag.py:29-33 | two calls on a fresh use case open the store once, on the first call |
| QueryRag.ExecuteLocal | use_cases/query_rag.py:51-64 | per-request overrides: the same result as `Execute` for the call, with the object's settings left unchanged |
| QueryRag.LocalOverridesDoNotLeak | use_cases/query_rag.py:51-55 | after a local override, the next call without overrides retrieves with the object's own k and search type |
| QueryRag.OverrideLeaksIntoNextCall | use_cases/query_rag.py:52-53 | as written, after a call with k = 3, a plain call on a default object retrieves with k = 3 rather than 5 |
| Ingest.NewIngestor | use_cases/ingest_documents.py:14-25 | the splitter is always 1000/150 with start indices, whatever the settings; the store is not yet opened |
| Ingest.Execute | use_cases/ingest_documents.py:27-33 | no loaded pages gives (0, 0) and changes nothing; otherwise the result is the page count and the number of chunks of the single split, and exactly those chunks, in order, are appended to the store's collection; the first component is 0 exactly when nothing was loaded |
| Ingest.EmptyLoadIgnoresSplitAndStore | use_cases/ingest_documents.py:29-30 | an empty load gives the same outcome whatever the splitter and the environment would do, and it leaves the store unopened |
| Ingest.IngestOpensOnce | use_cases/ingest_documents.py:31-33 | a non-empty ingest opens the store with the first call's embeddings, and a second ingest reuses that backend without reopening; the collection then holds the first file's chunks followed by the second's |
| Echo.EchoFn | infrastructure/llm/langchain_provider.py:9-11 | the output has the single key "answer", holding "echo: " followed by the question verbatim, or "" when the question is missing |
| Echo.EchoInjective | infrastructure/llm/langchain_provider.py:11 | the question can be recovered from the answer |
| Echo.EchoPing | tests/test_echo.py:15 | "ping" is answered with "echo: ping" |
| Echo.EchoMissingQuestion | infrastructure/llm/langchain_provider.py:10 | a missing question is answered with the bare prefix |

## Left out

- Library behaviour is not modelled. This covers the text splitter's chunking, Chroma persistence (the collection is represented only by the log of documents handed to it), similarity and MMR search, PDF loading, embedding computation and the chat call. Each is an oracle parameter, or a record of its constructor arguments.
- The real `log2` discount and floating-point rounding are left out. NDCG is proved for every valid abstract discount.
- The report's `%.6f` formatting is left out, for the same reason.
- File, console and CSV I/O are left out: `load_pdfs_as_docs`, `rebuild_index`, `dump_candidates`, the report writer, the summary table and timestamps. The evaluation takes the gold rows as already tokenised and retrieval as an oracle.
- Loading `Settings` from the environment and `.env` is left out. `env` parameters stand for what a fresh `Settings()` would read.
- The HTTP layer, app wiring, `query_simple`, the LangSmith setup and the missing `stats()` method are outside the modelled core.
- Concurrency is left out; the code has none. The persistent settings mutation is modelled for sequential calls only.
- Text.Lower: lower-cases ASCII letters only. Python's `str.lower` also maps non-ASCII letters, which no tag in use contains.
- Text.Strip: whitespace covers ASCII and Latin-1 only. Python's `str.strip` also strips the other Unicode spaces.
- Generation.PageValues: lists integer page values only. A string-valued `page` is skipped, whereas the source appends every value that is not `None`. Pages of mixed kinds would make the source's `sorted` raise a TypeError, and the page line would need Python's `str` of a mixed list; neither is modelled.
- Generation.CollectContext: its pages are those of PageValues, integers only, for the same reason. The texts are collected exactly.
- Generation.PageValuesMembers: collects integer page values only. A string-valued `page` is skipped, whereas the source collects it; the source's sort then fails on a mix of kinds.
- Generation.Generate: the fake backend is modelled as always answering its single response. The cycling through a longer response list is not needed, since only one response is ever configured.
- Echo.EchoFn: the input values are strings. The f-string rendering of other value types is not modelled.
- EvalHarness.RetrievedIds: a present `chunk_id` that is not a string is replaced by "", where the source compares the raw value. The two agree on every gold set `ParseIds` can produce, since those never contain "" (RankIdMembership), but not on a hand-built gold set containing "".
- Metrics.Recall: "k <= 0 gives 0" holds only for k = 0, and for k at or below minus the list length. Python's `[:k]` with negative k drops the last -k items, and the model follows that.

## Findings

| source | as written | input that shows it | evidently intended | confidence | as-written member | corrected member |
|---|---|---|---|---|---|---|
| use_cases/query_rag.py:52-55 | per-call `k`/`search_type` overrides are assigned into the use case's settings object, so they stay in force for later calls and for every holder of that settings object | a call with `k=3`, then a call without `k` on a default-configured object: the second call retrieves 3 documents, not 5 | overrides apply to one request only, as the comment on line 51 says ("overrides por requisição") | medium, not executed (the web route builds a fresh use case per request, which hides the effect there) | QueryRag.OverrideLeaksIntoNextCall | QueryRag.ExecuteLocal |
