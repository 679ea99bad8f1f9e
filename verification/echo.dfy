/** The echo chain (infrastructure/llm/langchain_provider.py): a runnable
    that answers with the question prefixed by "echo: ". Inputs are taken
    to map keys to strings. */
module Echo {

  const EchoPrefix: string := "echo: "
  const AnswerKey: string := "answer"
  const QuestionKey: string := "question"

  /** `_echo_fn`: a mapping with the single key "answer", holding the
      prefix followed by the question verbatim ("" when it is missing). */
  function EchoFn(inputs: map<string, string>): (out: map<string, string>)
    ensures out.Keys == {AnswerKey}
    ensures |out[AnswerKey]| >= |EchoPrefix| && out[AnswerKey][..|EchoPrefix|] == EchoPrefix
    ensures out[AnswerKey][|EchoPrefix|..] == if QuestionKey in inputs then inputs[QuestionKey] else ""
  {
    var q := if QuestionKey in inputs then inputs[QuestionKey] else "";
    map[AnswerKey := EchoPrefix + q]
  }

  /** The question is recoverable from the answer: two inputs get the same
      answer only if their questions agree (a missing one counting as ""). */
  lemma EchoInjective(a: map<string, string>, b: map<string, string>)
    requires EchoFn(a) == EchoFn(b)
    ensures (if QuestionKey in a then a[QuestionKey] else "") == (if QuestionKey in b then b[QuestionKey] else "")
  {
    assert EchoFn(a)[AnswerKey][|EchoPrefix|..] == EchoFn(b)[AnswerKey][|EchoPrefix|..];
  }

  /** The asserted example: "ping" is answered with "echo: ping". */
  lemma EchoPing()
    ensures EchoFn(map[QuestionKey := "ping"])[AnswerKey] == "echo: ping"
  {
  }

  /** A missing question is answered with the bare prefix. */
  lemma EchoMissingQuestion(inputs: map<string, string>)
    requires QuestionKey !in inputs
    ensures EchoFn(inputs)[AnswerKey] == EchoPrefix
  {
  }
}
