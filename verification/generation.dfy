/** The LangChain LLM provider (infrastructure/llm/langchain_llm_provider.py):
    the choice of chat backend from the settings, and the assembly of the
    two prompt messages from a question and its context snippets. The chat
    call itself is an oracle. */
module Generation {
  import opened Base
  import opened Text
  import opened Config

  const FakeAnswer: string := "This is a fake LLM answer."
  const MaxSnippets: nat := 10
  const MaxSnippetChars: nat := 1200
  const PageKey: string := "page"

  const ContextHeader: string := "CONTEXT (use apenas o que segue):\n"
  const Separator: string := "\n\n---\n\n"
  const PagesPrefix: string := "PÁGINAS DISPONÍVEIS NOS TRECHOS: "
  const NoPagesLine: string := "PÁGINAS DISPONÍVEIS: (não informadas)"
  const QuestionLabel: string := "\n\nPERGUNTA: "
  const SystemPrompt: string :=
    "Você é um assistente conciso e fiel ao contexto.\n"
    + "Para pedidos de RESUMO: produza um resumo apenas com o que estiver no contexto.\n"
    + "Se faltar informação relevante, ainda assim entregue o melhor resumo possível e liste 'Limitações' no final."

  /** A chat backend, by its constructor arguments. The fake one always
      answers `FakeAnswer`: it is built with that single response. */
  datatype LlmBackend =
    | ChatOpenAI(model: string, temperature: real)
    | ChatOllama(model: string, temperature: real)
    | FakeChat

  /** The `RuntimeError` raised when the selected backend's library is not
      installed. */
  datatype LlmError = OpenAIMissing | OllamaMissing

  /** Which optional chat libraries imported successfully. */
  datatype Libraries = Libraries(openai: bool, ollama: bool)

  /** The provider tag as `_build_llm` compares it: lower-cased, with a
      missing or empty tag read as "fake". */
  function LlmTag(settings: Settings): string {
    Lower(OrDefault(settings.llmProvider, "fake"))
  }

  /** The model name: "fake" when missing or empty. */
  function LlmModel(settings: Settings): (m: string)
    ensures m != ""
  {
    OrDefault(settings.llmModel, "fake")
  }

  /** The temperature: 0.0 when unset. */
  function LlmTemperature(settings: Settings): real {
    settings.llmTemperature.GetOr(0.0)
  }

  /** `_build_llm`: "openai" and "ollama" select those backends, failing
      when their library is missing; every other tag selects the fake
      backend. */
  function BuildLlm(settings: Settings, libs: Libraries): (r: Result<LlmBackend, LlmError>)
    ensures r.Ok? && !r.value.FakeChat? ==>
              r.value.model == LlmModel(settings) && r.value.temperature == LlmTemperature(settings)
    ensures r.Ok? && r.value.ChatOpenAI? <==> LlmTag(settings) == "openai" && libs.openai
    ensures r.Ok? && r.value.ChatOllama? <==> LlmTag(settings) == "ollama" && libs.ollama
    ensures r == Err(OpenAIMissing) <==> LlmTag(settings) == "openai" && !libs.openai
    ensures r == Err(OllamaMissing) <==> LlmTag(settings) == "ollama" && !libs.ollama
  {
    var provider := LlmTag(settings);
    var model := LlmModel(settings);
    var temperature := LlmTemperature(settings);
    if provider == "openai" then
      if !libs.openai then Err(OpenAIMissing) else Ok(ChatOpenAI(model, temperature))
    else if provider == "ollama" then
      if !libs.ollama then Err(OllamaMissing) else Ok(ChatOllama(model, temperature))
    else Ok(FakeChat)
  }

  /** The fake backend is chosen exactly for the tags that name neither
      real backend, unknown tags included, and then whatever libraries are
      installed. */
  lemma FakeIffUnknownTag(settings: Settings, libs: Libraries)
    ensures BuildLlm(settings, libs) == Ok(FakeChat)
            <==> LlmTag(settings) != "openai" && LlmTag(settings) != "ollama"
  {
  }

  /** The tag is compared case-insensitively: a tag and its lower-cased
      form select the same backend. */
  lemma BuildLlmIgnoresCase(settings: Settings, libs: Libraries, tag: string)
    requires tag != ""
    ensures BuildLlm(settings.(llmProvider := Some(tag)), libs)
            == BuildLlm(settings.(llmProvider := Some(Lower(tag))), libs)
  {
    LowerIdempotent(tag);
  }

  /** The shipped defaults select the fake backend with no library. */
  lemma DefaultsAreFake(libs: Libraries)
    ensures BuildLlm(Defaults, libs) == Ok(FakeChat)
  {
    assert LlmTag(Defaults) == "fake";
  }

  /** One context snippet: a text and its metadata. */
  datatype Snippet = Snippet(text: string, meta: Metadata)

  /** The snippets `generate` looks at: the first ten. */
  function Window(snippets: seq<Snippet>): (w: seq<Snippet>)
    ensures |w| == if |snippets| <= MaxSnippets then |snippets| else MaxSnippets
    ensures w == snippets[..|w|]
  {
    if |snippets| <= MaxSnippets then snippets else snippets[..MaxSnippets]
  }

  /** The page metadata of a snippet, `None` when absent. */
  function PageOf(s: Snippet): Value {
    Get(s.meta, PageKey, Null)
  }

  /** The texts of the snippets, in order. */
  function TextsOf(snippets: seq<Snippet>): (r: seq<string>)
    ensures |r| == |snippets|
    ensures forall i :: 0 <= i < |r| ==> r[i] == snippets[i].text
  {
    seq(|snippets|, i requires 0 <= i < |snippets| => snippets[i].text)
  }

  /** The page number a snippet contributes: its page when that is an
      integer, nothing otherwise. */
  function PageNumber(s: Snippet): seq<int> {
    match PageOf(s)
    case Num(p) => [p]
    case _ => []
  }

  /** The integer page numbers of the snippets, in snippet order. */
  function PageValues(snippets: seq<Snippet>): (r: seq<int>)
    ensures |r| <= |snippets|
  {
    if |snippets| == 0 then []
    else PageValues(snippets[..|snippets| - 1]) + PageNumber(snippets[|snippets| - 1])
  }

  /** A number is listed exactly when some snippet carries it as its
      page. */
  lemma {:induction false} PageValuesMembers(snippets: seq<Snippet>)
    ensures forall x :: x in PageValues(snippets)
                        <==> exists i :: 0 <= i < |snippets| && PageOf(snippets[i]) == Num(x)
  {
    if |snippets| > 0 {
      var n := |snippets| - 1;
      var init := snippets[..n];
      PageValuesMembers(init);
      forall x ensures x in PageValues(snippets)
                       <==> exists i :: 0 <= i < |snippets| && PageOf(snippets[i]) == Num(x)
      {
        if exists i :: 0 <= i < |snippets| && PageOf(snippets[i]) == Num(x) {
          var i :| 0 <= i < |snippets| && PageOf(snippets[i]) == Num(x);
          if i < n {
            assert init[i] == snippets[i];
          }
        }
        if x in PageValues(init) {
          var i :| 0 <= i < |init| && PageOf(init[i]) == Num(x);
          assert snippets[i] == init[i];
        }
      }
    }
  }

  /** The collection loop of `generate`: the texts of the first ten
      snippets, in order, and the integer pages among them, in order. */
  method CollectContext(snippets: seq<Snippet>) returns (texts: seq<string>, pages: seq<int>)
    ensures texts == TextsOf(Window(snippets))
    ensures pages == PageValues(Window(snippets))
  {
    var w := Window(snippets);
    texts := [];
    pages := [];
    for i := 0 to |w|
      invariant |texts| == i
      invariant forall k :: 0 <= k < i ==> texts[k] == w[k].text
      invariant pages == PageValues(w[..i])
    {
      assert w[..i + 1][..i] == w[..i];
      texts := texts + [w[i].text];
      var p := PageOf(w[i]);
      if p.Num? {
        pages := pages + [p.n];
      }
    }
    assert w[..|w|] == w;
    assert texts == TextsOf(w);
  }

  predicate StrictlySorted(r: seq<int>) {
    forall i, j :: 0 <= i < j < |r| ==> r[i] < r[j]
  }

  /** The head of a strictly sorted list is below everything after it,
      and its tail is strictly sorted too. */
  lemma SortedParts(r: seq<int>)
    requires StrictlySorted(r) && |r| > 0
    ensures StrictlySorted(r[1..])
    ensures forall y :: y in r[1..] ==> r[0] < y
  {
    forall y | y in r[1..] ensures r[0] < y {
      var k :| 0 <= k < |r[1..]| && r[1..][k] == y;
      assert r[k + 1] == y;
    }
  }

  /** A value below every element of a strictly sorted list can go in
      front of it. */
  lemma SortedCons(h: int, t: seq<int>)
    requires StrictlySorted(t)
    requires forall y :: y in t ==> h < y
    ensures StrictlySorted([h] + t)
  {
    var o := [h] + t;
    forall i, j | 0 <= i < j < |o| ensures o[i] < o[j] {
      assert o[j] == t[j - 1] && t[j - 1] in t;
      if i > 0 {
        assert o[i] == t[i - 1];
      }
    }
  }

  /** Inserts `x` into a strictly sorted list, unless it is already there. */
  function Insert(x: int, r: seq<int>): (o: seq<int>)
    requires StrictlySorted(r)
    ensures StrictlySorted(o)
    ensures forall y :: y in o <==> y == x || y in r
  {
    if |r| == 0 then [x]
    else
      SortedParts(r);
      assert r == [r[0]] + r[1..];
      if x < r[0] then
        SortedCons(x, r);
        [x] + r
      else if x == r[0] then r
      else
        var tail := Insert(x, r[1..]);
        SortedCons(r[0], tail);
        [r[0]] + tail
  }

  /** Python's `sorted(set(xs))`: the distinct values of `xs`, ascending. */
  function SortedUnique(xs: seq<int>): (r: seq<int>)
    ensures StrictlySorted(r)
    ensures forall y :: y in r <==> y in xs
  {
    if |xs| == 0 then []
    else
      assert xs == [xs[0]] + xs[1..];
      Insert(xs[0], SortedUnique(xs[1..]))
  }

  /** A strictly sorted list is determined by its elements, so
      `SortedUnique` is the one ascending list without repeats that holds
      exactly the values of its input. */
  lemma {:induction false} SortedIsCanonical(a: seq<int>, b: seq<int>)
    requires StrictlySorted(a) && StrictlySorted(b)
    requires forall y :: y in a <==> y in b
    ensures a == b
    decreases |a|
  {
    assert |a| == 0 <==> |b| == 0 by {
      if |a| > 0 { assert a[0] in a; }
      if |b| > 0 { assert b[0] in b; }
    }
    if |a| > 0 {
      SortedParts(a);
      SortedParts(b);
      assert a == [a[0]] + a[1..] && b == [b[0]] + b[1..];
      assert a[0] == b[0] by {
        assert a[0] in b && b[0] in a;
      }
      forall y ensures y in a[1..] <==> y in b[1..] {
        assert y in a <==> y == a[0] || y in a[1..];
        assert y in b <==> y == b[0] || y in b[1..];
      }
      SortedIsCanonical(a[1..], b[1..]);
    }
  }

  /** Python's rendering of a list of integers: "[1, 2, 3]", "[]". */
  function RenderList(xs: seq<int>): string {
    "[" + Join(seq(|xs|, i requires 0 <= i < |xs| => IntToString(xs[i])), ", ") + "]"
  }

  /** The line naming the available pages. */
  function PageLine(pages: seq<int>): string {
    if |pages| == 0 then NoPagesLine else PagesPrefix + RenderList(SortedUnique(pages))
  }

  /** The page line says "não informadas" exactly when no page was found. */
  lemma NoPagesIff(pages: seq<int>)
    ensures PageLine(pages) == NoPagesLine <==> |pages| == 0
  {
    if |pages| > 0 {
      var l := PageLine(pages);
      assert l == PagesPrefix + RenderList(SortedUnique(pages));
      assert l[..|PagesPrefix|] == PagesPrefix;
      assert l[19] == PagesPrefix[19] == ' ';
      assert NoPagesLine[19] == ':';
    }
  }

  /** The page line depends only on the set of pages found: order and
      repetition among the snippets do not matter. */
  lemma PageLineDependsOnSet(a: seq<int>, b: seq<int>)
    requires forall y :: y in a <==> y in b
    ensures PageLine(a) == PageLine(b)
  {
    SortedIsCanonical(SortedUnique(a), SortedUnique(b));
    assert |a| == 0 <==> |b| == 0 by {
      if |a| > 0 { assert a[0] in a; }
      if |b| > 0 { assert b[0] in b; }
    }
  }

  /** Each text cut to its first 1200 characters. */
  function Truncated(texts: seq<string>): (r: seq<string>)
    ensures |r| == |texts|
    ensures forall i :: 0 <= i < |r| ==> r[i] == Take(texts[i], MaxSnippetChars)
  {
    seq(|texts|, i requires 0 <= i < |texts| => Take(texts[i], MaxSnippetChars))
  }

  /** The context block: the header, then the truncated texts joined by
      the separator. */
  function ContextBlock(texts: seq<string>): (r: string)
    ensures |texts| == 0 ==> r == ContextHeader
    ensures |r| >= |ContextHeader| && r[..|ContextHeader|] == ContextHeader
  {
    ContextHeader + Join(Truncated(texts), Separator)
  }

  /** Each further text adds the separator and its first 1200 characters
      to the end of the block, so the block lists the texts in input
      order. */
  lemma ContextBlockSnoc(texts: seq<string>, t: string)
    requires |texts| > 0
    ensures ContextBlock(texts + [t]) == ContextBlock(texts) + Separator + Take(t, MaxSnippetChars)
  {
    assert Truncated(texts + [t]) == Truncated(texts) + [Take(t, MaxSnippetChars)];
    JoinSnoc(Truncated(texts), Take(t, MaxSnippetChars), Separator);
  }

  /** However long the retrieved texts, the block built from the window of
      at most ten snippets has at most ten texts of 1200 characters and
      nine separators after the header. */
  lemma ContextBlockBounded(texts: seq<string>)
    requires |texts| <= MaxSnippets
    ensures |ContextBlock(texts)| <= |ContextHeader| + MaxSnippets * MaxSnippetChars
                                     + (MaxSnippets - 1) * |Separator|
  {
    var tr := Truncated(texts);
    if |tr| > 0 {
      JoinLength(tr, Separator);
      TotalLengthBound(tr, MaxSnippetChars);
      assert |tr| * MaxSnippetChars <= MaxSnippets * MaxSnippetChars;
      assert (|tr| - 1) * |Separator| <= (MaxSnippets - 1) * |Separator|;
    }
  }

  /** A single text of at most 1200 characters appears in full. */
  lemma ShortTextKept(t: string)
    requires |t| <= MaxSnippetChars
    ensures ContextBlock([t]) == ContextHeader + t
  {
  }

  /** The human message: the page line, a blank line, the context block,
      and the question label followed by the question. */
  function UserMessage(question: string, snippets: seq<Snippet>): (r: string)
    ensures var head := PageLine(PageValues(Window(snippets))) + "\n\n";
            |r| >= |head| && r[..|head|] == head
    ensures |r| >= |question| && r[|r| - |question|..] == question
  {
    var w := Window(snippets);
    PageLine(PageValues(w)) + "\n\n" + ContextBlock(TextsOf(w)) + QuestionLabel + question
  }

  /** The retrieved context reaches the prompt: the first 1200 characters
      of each of the first ten snippets occur in the message, which for a
      text of at most 1200 characters is the whole text. */
  lemma SnippetInMessage(question: string, snippets: seq<Snippet>, i: nat) returns (k: nat)
    requires i < |Window(snippets)|
    ensures var t := Take(Window(snippets)[i].text, MaxSnippetChars);
            var r := UserMessage(question, snippets);
            k + |t| <= |r| && r[k..k + |t|] == t
  {
    var w := Window(snippets);
    var tr := Truncated(TextsOf(w));
    var t := Take(w[i].text, MaxSnippetChars);
    assert tr[i] == t;
    var o := ItemInJoin(tr, i, Separator);
    var head := PageLine(PageValues(w)) + "\n\n" + ContextHeader;
    MessageParts(question, snippets);
    k := |head| + o;
    OccursIn(UserMessage(question, snippets), head, Join(tr, Separator), QuestionLabel + question, o, t);
  }

  /** The message laid out around the joined, truncated texts. */
  lemma MessageParts(question: string, snippets: seq<Snippet>)
    ensures var w := Window(snippets);
            UserMessage(question, snippets)
            == (PageLine(PageValues(w)) + "\n\n" + ContextHeader)
               + Join(Truncated(TextsOf(w)), Separator) + (QuestionLabel + question)
  {
  }

  /** A piece of the middle part of a message is a piece of the message. */
  lemma OccursIn(m: string, head: string, body: string, tail: string, o: nat, t: string)
    requires m == head + body + tail
    requires o + |t| <= |body| && body[o..o + |t|] == t
    ensures |head| + o + |t| <= |m| && m[|head| + o..|head| + o + |t|] == t
  {
    assert m[|head| + o..|head| + o + |t|] == body[o..o + |t|];
  }

  /** Only the first ten snippets matter: any snippets after them leave the
      message unchanged. */
  lemma OnlyFirstTenMatter(question: string, snippets: seq<Snippet>, more: seq<Snippet>)
    requires |snippets| >= MaxSnippets
    ensures UserMessage(question, snippets + more) == UserMessage(question, snippets)
  {
    assert Window(snippets + more) == Window(snippets);
  }

  /** The question is carried verbatim: for the same snippets, different
      questions give different messages. */
  lemma QuestionRecoverable(q1: string, q2: string, snippets: seq<Snippet>)
    requires UserMessage(q1, snippets) == UserMessage(q2, snippets)
    ensures q1 == q2
  {
    var w := Window(snippets);
    var prefix := PageLine(PageValues(w)) + "\n\n" + ContextBlock(TextsOf(w)) + QuestionLabel;
    assert UserMessage(q1, snippets) == prefix + q1;
    assert UserMessage(q2, snippets) == prefix + q2;
    assert q1 == (prefix + q1)[|prefix|..];
    assert q2 == (prefix + q2)[|prefix|..];
  }

  datatype Message = SystemMessage(content: string) | HumanMessage(content: string)

  /** The two messages sent to the backend. */
  function Messages(question: string, snippets: seq<Snippet>): (m: seq<Message>)
    ensures |m| == 2 && m[0] == SystemMessage(SystemPrompt)
    ensures m[1].HumanMessage? && m[1].content == UserMessage(question, snippets)
  {
    [SystemMessage(SystemPrompt), HumanMessage(UserMessage(question, snippets))]
  }

  /** `generate`: the fake backend answers `FakeAnswer` whatever the
      question and context; a real backend is asked, through `invoke`,
      with the system prompt and the assembled message. */
  function Generate(backend: LlmBackend, invoke: (LlmBackend, seq<Message>) -> string,
                    question: string, snippets: seq<Snippet>): (r: string)
    ensures backend.FakeChat? ==> r == FakeAnswer
    ensures !backend.FakeChat? ==> r == invoke(backend, Messages(question, snippets))
  {
    if backend.FakeChat? then FakeAnswer else invoke(backend, Messages(question, snippets))
  }
}
