/** The application settings (app/settings.py) as a plain record: only the
    fields the modelled code reads. Loading them from the environment and
    from `.env` is not modelled. The provider, model and temperature
    fields are optional because the code reads them through Python's `or`,
    which treats a missing value and an empty one alike. */
module Config {
  import opened Base

  datatype Settings = Settings(
    chromaDir: string,
    chromaCollection: string,
    embeddingsProvider: Option<string>,
    embeddingsModel: Option<string>,
    retrieverSearchType: string,
    retrieverK: int,
    llmProvider: Option<string>,
    llmModel: Option<string>,
    llmTemperature: Option<real>)

  /** The declared defaults. */
  const Defaults: Settings := Settings(
    chromaDir := ".chroma",
    chromaCollection := "documents",
    embeddingsProvider := Some("fake"),
    embeddingsModel := Some("fake"),
    retrieverSearchType := "mmr",
    retrieverK := 5,
    llmProvider := Some("fake"),
    llmModel := Some("fake"),
    llmTemperature := Some(0.0))

  /** Python's `value or default` for an optional string: the value unless
      it is missing or empty. The result is never empty when the default
      is not. */
  function OrDefault(value: Option<string>, default: string): (r: string)
    ensures value.Some? && value.value != "" ==> r == value.value
    ensures value.None? || value.value == "" ==> r == default
  {
    match value
    case Some(v) => if v != "" then v else default
    case None => default
  }
}
