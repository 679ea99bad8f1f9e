/** Shared vocabulary: optional values, results with an error, the loosely
    typed metadata values that travel with documents, and the document
    record itself. */
module Base {

  /** A value that may be absent (Python's `None`). */
  datatype Option<+T> = None | Some(value: T) {
    /** The value, or `default` when absent (Python's `x or default` for a
        value whose only falsy form is `None`). */
    function GetOr(default: T): T {
      match this
      case Some(v) => v
      case None => default
    }
  }

  /** The outcome of an operation that the source lets raise. */
  datatype Result<+T, +E> = Ok(value: T) | Err(error: E) {
    predicate IsFailure() {
      Err?
    }

    function PropagateFailure<U>(): Result<U, E>
      requires Err?
    {
      Err(error)
    }

    function Extract(): T
      requires Ok?
    {
      value
    }
  }

  /** A metadata value. Metadata mappings are `dict[str, Any]` in the source;
      the values that matter to the modelled code are `None`, integers
      (page numbers) and strings (file names, chunk ids). */
  datatype Value = Null | Num(n: int) | Str(s: string)

  type Metadata = map<string, Value>

  /** A LangChain document: page text plus metadata. Pages, chunks and
      retrieved hits all have this shape. */
  datatype Document = Document(pageContent: string, metadata: Metadata)

  /** Python's `m.get(key, default)`. */
  function Get(m: Metadata, key: string, default: Value): (v: Value)
    ensures key in m ==> v == m[key]
    ensures key !in m ==> v == default
  {
    if key in m then m[key] else default
  }
}
