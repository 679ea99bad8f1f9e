/** The embeddings provider (infrastructure/embeddings/provider.py): the
    backend is chosen from the settings' provider tag and cached on the
    provider object the first time `instance` is read. The backends
    themselves are library objects and are modelled by their constructor
    arguments only. */
module Embeddings {
  import opened Base
  import opened Text
  import opened Config

  const FakeDimension: nat := 1536
  const OllamaFallbackModel: string := "nomic-embed-text"

  datatype EmbeddingsBackend =
    | OpenAIEmbeddings(model: string)
    | OllamaEmbeddings(model: string)
    | FakeEmbeddings(size: nat)

  /** The provider tag as `_build` compares it: lower-cased, with a
      missing or empty tag read as "fake". */
  function ProviderTag(settings: Settings): string {
    Lower(OrDefault(settings.embeddingsProvider, "fake"))
  }

  /** The model name as `_build` reads it: "fake" when missing or empty. */
  function ModelName(settings: Settings): string {
    OrDefault(settings.embeddingsModel, "fake")
  }

  /** `_build`: "openai" and "ollama" select those backends; every other
      tag, unknown ones included, silently selects the fake backend of
      dimension 1536. */
  function Build(settings: Settings): (b: EmbeddingsBackend)
    ensures ProviderTag(settings) == "openai" <==> b.OpenAIEmbeddings?
    ensures ProviderTag(settings) == "ollama" <==> b.OllamaEmbeddings?
    ensures b.FakeEmbeddings? <==> ProviderTag(settings) != "openai" && ProviderTag(settings) != "ollama"
    ensures b.FakeEmbeddings? ==> b.size == FakeDimension
    ensures !b.FakeEmbeddings? ==> b.model == ModelName(settings) && b.model != ""
  {
    var provider := ProviderTag(settings);
    var model := ModelName(settings);
    if provider == "openai" then OpenAIEmbeddings(model)
    else if provider == "ollama" then OllamaEmbeddings(if model != "" then model else OllamaFallbackModel)
    else FakeEmbeddings(FakeDimension)
  }

  /** The "nomic-embed-text" fallback of the ollama branch cannot be
      reached: the model is already "fake" when unset, so an ollama backend
      gets "nomic-embed-text" only when the settings name it. */
  lemma OllamaFallbackUnreachable(settings: Settings)
    requires Build(settings).OllamaEmbeddings?
    ensures Build(settings).model == OllamaFallbackModel
            <==> settings.embeddingsModel == Some(OllamaFallbackModel)
  {
  }

  /** The tag is compared case-insensitively: a tag and its lower-cased
      form select the same backend. */
  lemma BuildIgnoresCase(settings: Settings, tag: string)
    requires tag != ""
    ensures Build(settings.(embeddingsProvider := Some(tag)))
            == Build(settings.(embeddingsProvider := Some(Lower(tag))))
  {
    LowerIdempotent(tag);
  }

  /** A provider object: its settings, its cached backend and how many
      times it has built one. */
  datatype Provider = Provider(settings: Settings, cache: Option<EmbeddingsBackend>, builds: nat)

  /** `EmbeddingsProvider(settings)`: the cache lives on the object and
      the class attribute stays `None`, so every new provider starts
      empty. */
  function NewProvider(settings: Settings): (p: Provider)
    ensures p.settings == settings && p.cache.None? && p.builds == 0
  {
    Provider(settings, None, 0)
  }

  /** The `instance` property: build on first read, then return the
      cached backend. */
  function Instance(p: Provider): (r: (Provider, EmbeddingsBackend))
    ensures p.cache.Some? ==> r.0 == p && r.1 == p.cache.value
    ensures p.cache.None? ==> r.1 == Build(p.settings)
                              && r.0 == p.(cache := Some(r.1), builds := p.builds + 1)
  {
    match p.cache
    case Some(b) => (p, b)
    case None =>
      var b := Build(p.settings);
      (p.(cache := Some(b), builds := p.builds + 1), b)
  }

  /** Reads `instance` `n` times in a row and returns the final provider
      and the backends seen. */
  function ReadInstance(p: Provider, n: nat): (Provider, seq<EmbeddingsBackend>)
    decreases n
  {
    if n == 0 then (p, [])
    else
      var (p1, b) := Instance(p);
      var (p2, bs) := ReadInstance(p1, n - 1);
      (p2, [b] + bs)
  }

  /** However often `instance` is read, a provider object builds at most
      once (and only if it had not yet), and every read returns the same
      backend, the one its settings select. */
  lemma {:induction false} BuildsAtMostOnce(p: Provider, n: nat)
    requires p.cache.None? || p.cache == Some(Build(p.settings))
    ensures var (q, bs) := ReadInstance(p, n);
            && q.builds == p.builds + (if p.cache.None? && n > 0 then 1 else 0)
            && q.settings == p.settings
            && |bs| == n
            && forall i :: 0 <= i < n ==> bs[i] == Build(p.settings)
    decreases n
  {
    if n > 0 {
      var (p1, b) := Instance(p);
      BuildsAtMostOnce(p1, n - 1);
    }
  }
}
