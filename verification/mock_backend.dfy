/**
  The mock execution backend: `/api/agents/execute` answers with a
  contract report for agents that look like contract or HR agents and a
  generic result otherwise; `/api/llm/call` answers from the prompt's
  keywords and counts two tokens per word. The fixed report documents it
  returns are represented by constructors, not by their text.
 */
module MockBackend {
  import opened StringUtil
  import opened Options
  import opened JsonValue

  // ---------------------------------------------------------------------------
  // Python helpers
  // ---------------------------------------------------------------------------

  /** `dict.get(key, default)`: a present key gives its value, whatever it is. */
  function DictGet(d: Json, key: string, default: Json): (v: Json)
    ensures Get(d, key).Some? ==> v == Get(d, key).value
    ensures Get(d, key).None? ==> v == default
  {
    var found := Get(d, key);
    if found.Some? then found.value else default
  }

  /** The characters `str.split()` separates on. */
  predicate IsPySpace(c: char) {
    c == ' ' || '\U{0009}' <= c <= '\U{000D}' || '\U{001C}' <= c <= '\U{001F}'
    || c == '\U{0085}' || c == '\U{00A0}' || c == '\U{1680}' || '\U{2000}' <= c <= '\U{200A}'
    || c == '\U{2028}' || c == '\U{2029}' || c == '\U{202F}' || c == '\U{205F}' || c == '\U{3000}'
  }

  /** The length of the run of non-space characters `s` starts with. */
  function WordLength(s: string): (n: nat)
    ensures n <= |s|
    ensures forall i :: 0 <= i < n ==> !IsPySpace(s[i])
    ensures n < |s| ==> IsPySpace(s[n])
  {
    if |s| == 0 || IsPySpace(s[0]) then 0 else 1 + WordLength(s[1..])
  }

  /** `s.split()`: the maximal runs of non-space characters, in order. */
  function SplitWords(s: string): (words: seq<string>)
    ensures forall k :: 0 <= k < |words| ==> |words[k]| > 0
    ensures forall k, i :: 0 <= k < |words| && 0 <= i < |words[k]| ==> !IsPySpace(words[k][i])
    decreases |s|
  {
    if |s| == 0 then []
    else if IsPySpace(s[0]) then SplitWords(s[1..])
    else
      var n := WordLength(s);
      [s[..n]] + SplitWords(s[n..])
  }

  /** A string of spaces has no words. */
  lemma {:induction false} SplitBlank(s: string)
    requires forall i :: 0 <= i < |s| ==> IsPySpace(s[i])
    ensures SplitWords(s) == []
  {
    if |s| > 0 {
      SplitBlank(s[1..]);
    }
  }

  /** A word followed by a space and more text is split off as the first word. */
  lemma {:induction false} SplitLeadingWord(w: string, c: char, rest: string)
    requires |w| > 0 && forall i :: 0 <= i < |w| ==> !IsPySpace(w[i])
    requires IsPySpace(c)
    ensures SplitWords(w + [c] + rest) == [w] + SplitWords(rest)
  {
    var s := w + [c] + rest;
    WordLengthOf(w, c, rest);
    assert s[..|w|] == w;
    assert s[|w|..] == [c] + rest;
    assert ([c] + rest)[1..] == rest;
  }

  lemma {:induction false} WordLengthOf(w: string, c: char, rest: string)
    requires forall i :: 0 <= i < |w| ==> !IsPySpace(w[i])
    requires IsPySpace(c)
    ensures WordLength(w + [c] + rest) == |w|
  {
    if |w| > 0 {
      assert (w + [c] + rest)[1..] == w[1..] + [c] + rest;
      WordLengthOf(w[1..], c, rest);
    } else {
      assert (w + [c] + rest)[0] == c;
    }
  }

  /** Splitting text joined by a space gives the words of each side. */
  lemma {:induction false} SplitWordsJoin(a: string, c: char, b: string)
    requires IsPySpace(c)
    ensures SplitWords(a + [c] + b) == SplitWords(a) + SplitWords(b)
    decreases |a|, 1
  {
    if |a| == 0 {
      JoinEmptyStep(a, c, b);
    } else if IsPySpace(a[0]) {
      JoinAfterSpace(a, c, b);
    } else {
      JoinAfterWord(a, c, b);
    }
  }

  lemma {:induction false} JoinAfterSpace(a: string, c: char, b: string)
    requires IsPySpace(c) && |a| > 0 && IsPySpace(a[0])
    ensures SplitWords(a + [c] + b) == SplitWords(a) + SplitWords(b)
    decreases |a|, 0
  {
    JoinSpaceStep(a, c, b);
    SplitWordsJoin(a[1..], c, b);
  }

  lemma {:induction false} JoinAfterWord(a: string, c: char, b: string)
    requires IsPySpace(c) && |a| > 0 && !IsPySpace(a[0])
    ensures SplitWords(a + [c] + b) == SplitWords(a) + SplitWords(b)
    decreases |a|, 0
  {
    var n := WordLength(a);
    JoinWordStep(a, c, b);
    SplitWordsJoin(a[n..], c, b);
    ConsAssoc(a[..n], SplitWords(a[n..]), SplitWords(b));
  }

  lemma ConsAssoc<T>(x: T, p: seq<T>, q: seq<T>)
    ensures [x] + (p + q) == [x] + p + q
  {
  }

  /** With nothing before it, the joining space is skipped. */
  lemma JoinEmptyStep(a: string, c: char, b: string)
    requires IsPySpace(c) && |a| == 0
    ensures SplitWords(a + [c] + b) == SplitWords(a) + SplitWords(b)
  {
    var s := a + [c] + b;
    assert s == [c] + b;
    assert s[1..] == b;
  }

  /** A leading space is skipped on both sides of the join. */
  lemma JoinSpaceStep(a: string, c: char, b: string)
    requires |a| > 0 && IsPySpace(a[0])
    ensures SplitWords(a + [c] + b) == SplitWords(a[1..] + [c] + b)
    ensures SplitWords(a) == SplitWords(a[1..])
  {
    assert (a + [c] + b)[1..] == a[1..] + [c] + b;
  }

  /** A leading word of `a` is the leading word of the joined text too, when a space follows `a`. */
  lemma JoinWordStep(a: string, c: char, b: string)
    requires IsPySpace(c) && |a| > 0 && !IsPySpace(a[0])
    ensures var n := WordLength(a);
      SplitWords(a + [c] + b) == [a[..n]] + SplitWords(a[n..] + [c] + b)
      && SplitWords(a) == [a[..n]] + SplitWords(a[n..])
  {
    var s := a + [c] + b;
    var n := WordLength(a);
    WordLengthPrefix(a, [c] + b);
    assert s == a + ([c] + b);
    assert s[..n] == a[..n];
    assert s[n..] == a[n..] + [c] + b;
  }

  /** A word inside `a` ends before the appended text when a space follows `a`. */
  lemma {:induction false} WordLengthPrefix(a: string, t: string)
    requires |t| > 0 && IsPySpace(t[0])
    ensures WordLength(a + t) == WordLength(a)
  {
    if |a| > 0 {
      assert (a + t)[1..] == a[1..] + t;
      if !IsPySpace(a[0]) {
        WordLengthPrefix(a[1..], t);
      }
    }
  }

  // ---------------------------------------------------------------------------
  // /api/agents/execute
  // ---------------------------------------------------------------------------

  const FixedTimestamp := "2025-01-15T17:20:00Z"
  const GenericResultText := "Agente executado com sucesso"
  const MockExecutionTime := 2500

  /** The two shapes of `output`. `ContractReport` carries the fixed HTML contract analysis. */
  datatype AgentOutput =
    | ContractReport(status: string, dadosProcessados: Json, timestamp: string)
    | GenericResult(resultado: string, inputProcessado: Json, agente: Json, timestamp: string)

  datatype AgentSummary = AgentSummary(id: Json, name: Json, category: Json)

  datatype ExecutionResponse = ExecutionResponse(
    executionId: string,
    success: bool,
    output: AgentOutput,
    executionTime: nat,
    nodeResults: seq<Member>,
    agent: AgentSummary)

  /** The agent looks like a contract or HR agent: its lower-cased `str()` mentions `contrato` or `rh`. */
  predicate IsContractAgent(agentRepr: string) {
    Contains(ToLower(agentRepr), "contrato") || Contains(ToLower(agentRepr), "rh")
  }

  /**
    `execute_agent`. `agentRepr` is `str(agent)` and `idHash` is
    `hash(str(agent.get('id', 'unknown')))`, both computed by Python.
   */
  function ExecuteAgent(agent: Json, input: Json, agentRepr: string, idHash: int): (r: ExecutionResponse)
    ensures r.output.ContractReport? <==> IsContractAgent(agentRepr)
    ensures r.output.ContractReport? ==> r.output.dadosProcessados == input && r.output.status == "success"
    ensures r.output.GenericResult? ==>
              r.output.resultado == GenericResultText && r.output.inputProcessado == input
              && r.output.agente == DictGet(agent, "name", JString("Agente Desconhecido"))
    ensures r.output.timestamp == FixedTimestamp
    ensures r.success && r.executionTime == MockExecutionTime && r.nodeResults == []
    ensures r.agent.id == DictGet(agent, "id", JString("unknown"))
    ensures r.agent.name == DictGet(agent, "name", JString("Agente"))
    ensures r.agent.category == DictGet(agent, "category", JString("geral"))
    ensures StartsWith(r.executionId, "exec_")
  {
    var output :=
      if IsContractAgent(agentRepr) then ContractReport("success", input, FixedTimestamp)
      else GenericResult(GenericResultText, input, DictGet(agent, "name", JString("Agente Desconhecido")), FixedTimestamp);
    var id := "exec_" + IntToString(idHash);
    assert id[..5] == "exec_";
    ExecutionResponse(id, true, output, MockExecutionTime, [],
                      AgentSummary(DictGet(agent, "id", JString("unknown")),
                                   DictGet(agent, "name", JString("Agente")),
                                   DictGet(agent, "category", JString("geral"))))
  }

  /** An agent without a name is reported as unknown in the generic output and as `Agente` in the summary. */
  lemma UnnamedAgent(agent: Json, input: Json, agentRepr: string, idHash: int)
    requires !IsContractAgent(agentRepr) && Get(agent, "name").None?
    ensures var r := ExecuteAgent(agent, input, agentRepr, idHash);
      r.output.agente == JString("Agente Desconhecido") && r.agent.name == JString("Agente")
  {
  }

  // ---------------------------------------------------------------------------
  // /api/llm/call
  // ---------------------------------------------------------------------------

  /** What the simulated model answers with: the fixed contract analysis record, the fixed HTML report, or a line of text. */
  datatype LlmContent =
    | ContractAnalysisRecord
    | ContractHtmlReport
    | SimulatedText(text: string)

  datatype LlmResponse = LlmResponse(
    response: LlmContent,
    content: LlmContent,
    confidencePercent: nat,
    tokensUsed: nat,
    provider: string,
    model: string)

  const PromptEcho := 100

  /** `prompt[:100]`. */
  function Head(prompt: string): (h: string)
    ensures |h| == if |prompt| < PromptEcho then |prompt| else PromptEcho
    ensures h == prompt[..|h|]
  {
    if |prompt| < PromptEcho then prompt[..|prompt|] else prompt[..PromptEcho]
  }

  /** `Resposta simulada do <provider>/<model> para: <prompt[:100]>...`. */
  function SimulatedAnswer(provider: string, model: string, prompt: string): (text: string)
    ensures EndsWith(text, "...")
    ensures StartsWith(text, "Resposta simulada do " + provider + "/" + model + " para: ")
    ensures var pre := "Resposta simulada do " + provider + "/" + model + " para: ";
      |text| == |pre| + |Head(prompt)| + 3 && text[|pre|..|pre| + |Head(prompt)|] == Head(prompt)
  {
    var pre := "Resposta simulada do " + provider + "/" + model + " para: ";
    var text := pre + Head(prompt) + "...";
    EndsWithConcat(pre + Head(prompt), "...");
    assert text[..|pre|] == pre;
    assert text[|pre|..|pre| + |Head(prompt)|] == Head(prompt);
    text
  }

  predicate AsksContractAnalysis(prompt: string) {
    Contains(ToLower(prompt), "contrato") && Contains(ToLower(prompt), "analis")
  }

  predicate AsksReport(prompt: string) {
    Contains(ToLower(prompt), "relatório") || Contains(ToLower(prompt), "html")
  }

  /** `llm_call`: the contract analysis is checked first, then the report, then the echoed answer. */
  function LlmCall(provider: string, model: string, prompt: string): (r: LlmResponse)
    ensures r.response == r.content
    ensures r.content == ContractAnalysisRecord <==> AsksContractAnalysis(prompt)
    ensures r.content == ContractHtmlReport <==> !AsksContractAnalysis(prompt) && AsksReport(prompt)
    ensures r.content.SimulatedText? ==> r.content.text == SimulatedAnswer(provider, model, prompt)
    ensures r.tokensUsed == 2 * |SplitWords(prompt)|
    ensures r.confidencePercent == 95 && r.provider == provider && r.model == model
  {
    var content :=
      if AsksContractAnalysis(prompt) then ContractAnalysisRecord
      else if AsksReport(prompt) then ContractHtmlReport
      else SimulatedText(SimulatedAnswer(provider, model, prompt));
    LlmResponse(content, content, 95, |SplitWords(prompt)| * 2, provider, model)
  }

  /** Two prompts joined by a space use as many tokens as both apart. */
  lemma TokensAdd(provider: string, model: string, a: string, b: string)
    ensures LlmCall(provider, model, a + " " + b).tokensUsed
            == LlmCall(provider, model, a).tokensUsed + LlmCall(provider, model, b).tokensUsed
  {
    assert a + " " + b == a + [' '] + b;
    SplitWordsJoin(a, ' ', b);
  }
}
