/**
  The agent type detector of the test tooling: the test strategy it derives
  from an agent's structure (node types, providers, complexity and the
  timeout, retry and validation tables) and its structural validation.
 */
module AgentDetector {
  import opened StringUtil
  import opened Options
  import opened Workflow

  /**
    A node as the detector reads it: the workflow node (whose `nodeType` is
    `data.nodeType`), its label and the property names of its input and
    output schemas.
   */
  datatype DetectorNode = DetectorNode(
    node: AgentNode,
    caption: string,
    inputKeys: seq<string>,
    outputKeys: seq<string>)

  /** An agent. When the source's agent has no node or edge list, the list here is empty; an absent category is `""`. */
  datatype Agent = Agent(category: string, nodes: seq<DetectorNode>, edges: seq<Edge>)

  datatype Complexity = Beginner | Intermediate | Advanced

  datatype TestStrategy = TestStrategy(
    category: string,
    nodeTypes: seq<string>,
    providers: seq<string>,
    complexity: Complexity,
    requiredInputs: seq<string>,
    expectedOutputs: seq<string>,
    testTimeout: nat,
    retries: nat,
    validations: seq<string>)

  datatype ValidationResult = ValidationResult(valid: bool, error: Option<string>, warnings: seq<string>)

  datatype ValidationError = ValidationError(kind: string, message: string)

  datatype AgentValidation = AgentValidation(
    isValid: bool,
    errors: seq<ValidationError>,
    warnings: seq<string>,
    strategy: TestStrategy)

  // ---------------------------------------------------------------------------
  // Strategy
  // ---------------------------------------------------------------------------

  /** `node.data?.nodeType || 'unknown'`. */
  function NodeTypeOf(n: DetectorNode): string {
    if n.node.nodeType != "" then n.node.nodeType else "unknown"
  }

  function NodeTypesOf(nodes: seq<DetectorNode>): (types: seq<string>)
    ensures |types| == |nodes|
    ensures forall i :: 0 <= i < |nodes| ==> types[i] == NodeTypeOf(nodes[i])
  {
    if |nodes| == 0 then [] else [NodeTypeOf(nodes[0])] + NodeTypesOf(nodes[1..])
  }

  /** `extractNodeTypes`: the distinct node types, a node without one counting as `unknown`. */
  function ExtractNodeTypes(agent: Agent): (types: seq<string>)
    ensures NoDuplicates(types)
    ensures forall t :: t in types <==> exists i :: 0 <= i < |agent.nodes| && NodeTypeOf(agent.nodes[i]) == t
    ensures "" !in types
  {
    var all := NodeTypesOf(agent.nodes);
    var types := Dedup(all);
    assert forall t :: t in types <==> t in all by {
      forall t ensures t in types <==> t in all {
        assert t in types <==> t in ToSet(types);
        assert t in all <==> t in ToSet(all);
      }
    }
    types
  }

  /** Some AI node names provider `p`. */
  predicate ProvidedBy(nodes: seq<DetectorNode>, p: string) {
    exists i :: 0 <= i < |nodes| && nodes[i].node.nodeType == "ai" && nodes[i].node.provider == p
  }

  /** A provider of the tail is a provider of the whole sequence. */
  lemma ProvidedByTail(nodes: seq<DetectorNode>, p: string)
    requires |nodes| > 0 && ProvidedBy(nodes[1..], p)
    ensures ProvidedBy(nodes, p)
  {
    var i :| 0 <= i < |nodes[1..]| && nodes[1..][i].node.nodeType == "ai" && nodes[1..][i].node.provider == p;
    assert nodes[i + 1] == nodes[1..][i];
  }

  /** The providers of the AI nodes that name one, with repetitions. */
  function AiProviders(nodes: seq<DetectorNode>): (providers: seq<string>)
    ensures forall k :: 0 <= k < |providers| ==> providers[k] != ""
    ensures forall i :: 0 <= i < |nodes| && nodes[i].node.nodeType == "ai" && nodes[i].node.provider != ""
              ==> nodes[i].node.provider in providers
    ensures forall k :: 0 <= k < |providers| ==> ProvidedBy(nodes, providers[k])
  {
    if |nodes| == 0 then []
    else
      var n := nodes[0].node;
      assert forall i :: 1 <= i < |nodes| ==> nodes[i] == nodes[1..][i - 1];
      var here := if n.nodeType == "ai" && n.provider != "" then [n.provider] else [];
      var rest := AiProviders(nodes[1..]);
      forall k | 0 <= k < |rest| ensures ProvidedBy(nodes, rest[k]) {
        ProvidedByTail(nodes, rest[k]);
      }
      here + rest
  }

  /** `extractProviders`: the distinct named providers of the AI nodes. */
  function ExtractProviders(agent: Agent): (providers: seq<string>)
    ensures NoDuplicates(providers)
    ensures forall k :: 0 <= k < |providers| ==> providers[k] != ""
    ensures forall i :: 0 <= i < |agent.nodes| && agent.nodes[i].node.nodeType == "ai" && agent.nodes[i].node.provider != ""
              ==> agent.nodes[i].node.provider in providers
    ensures forall k :: 0 <= k < |providers| ==> ProvidedBy(agent.nodes, providers[k])
  {
    var all := AiProviders(agent.nodes);
    var providers := Dedup(all);
    assert forall p :: p in providers <==> p in all by {
      forall p ensures p in providers <==> p in all {
        assert p in providers <==> p in ToSet(providers);
        assert p in all <==> p in ToSet(all);
      }
    }
    assert forall k :: 0 <= k < |providers| ==> providers[k] in all;
    providers
  }

  /** How many nodes have the given `data.nodeType`. */
  function CountType(nodes: seq<DetectorNode>, t: string): (n: nat)
    ensures n <= |nodes|
    ensures n == 0 <==> forall i :: 0 <= i < |nodes| ==> nodes[i].node.nodeType != t
  {
    if |nodes| == 0 then 0
    else
      assert forall i :: 1 <= i < |nodes| ==> nodes[i] == nodes[1..][i - 1];
      (if nodes[0].node.nodeType == t then 1 else 0) + CountType(nodes[1..], t)
  }

  /** `determineComplexity` on the three counts it reads. */
  function ComplexityOf(nodeCount: nat, aiNodes: nat, apiNodes: nat): (c: Complexity)
    ensures c == Beginner <==> nodeCount <= 3 && aiNodes <= 1 && apiNodes == 0
    ensures c == Intermediate <==>
              !(nodeCount <= 3 && aiNodes <= 1 && apiNodes == 0) && nodeCount <= 6 && aiNodes <= 2 && apiNodes <= 2
  {
    if nodeCount <= 3 && aiNodes <= 1 && apiNodes == 0 then Beginner
    else if nodeCount <= 6 && aiNodes <= 2 && apiNodes <= 2 then Intermediate
    else Advanced
  }

  /**
    `determineComplexity`: beginner for at most three nodes with at most
    one AI node and no API node; intermediate, past that, for at most six
    nodes with at most two AI and two API nodes; advanced otherwise.
   */
  function DetermineComplexity(agent: Agent): (c: Complexity)
    ensures c == Beginner <==>
              |agent.nodes| <= 3 && CountType(agent.nodes, "ai") <= 1 && CountType(agent.nodes, "api") == 0
    ensures c == Advanced <==>
              (|agent.nodes| > 3 || CountType(agent.nodes, "ai") > 1 || CountType(agent.nodes, "api") > 0)
              && (|agent.nodes| > 6 || CountType(agent.nodes, "ai") > 2 || CountType(agent.nodes, "api") > 2)
  {
    ComplexityOf(|agent.nodes|, CountType(agent.nodes, "ai"), CountType(agent.nodes, "api"))
  }

  function Level(c: Complexity): nat {
    match c
    case Beginner => 0
    case Intermediate => 1
    case Advanced => 2
  }

  /** More nodes, more AI nodes or more API nodes never make an agent simpler. */
  lemma ComplexityMonotone(n1: nat, ai1: nat, api1: nat, n2: nat, ai2: nat, api2: nat)
    requires n1 <= n2 && ai1 <= ai2 && api1 <= api2
    ensures Level(ComplexityOf(n1, ai1, api1)) <= Level(ComplexityOf(n2, ai2, api2))
  {
  }

  /**
    The test timeout per grade. Every agent has one of the three grades,
    so the source's fallback for an unknown grade is never taken.
   */
  function TimeoutFor(c: Complexity): (ms: nat)
    ensures ms >= 30000
  {
    match c
    case Beginner => 30000
    case Intermediate => 60000
    case Advanced => 120000
  }

  function RetriesFor(c: Complexity): (n: nat)
    ensures 1 <= n <= 3
  {
    match c
    case Beginner => 3
    case Intermediate => 2
    case Advanced => 1
  }

  function ValidationsFor(c: Complexity): (v: seq<string>)
    ensures |v| > 0
  {
    match c
    case Beginner => ["basic_flow", "output_format"]
    case Intermediate => ["full_flow", "data_quality", "error_handling"]
    case Advanced => ["complete_validation", "performance", "security"]
  }

  /** A harder grade gets a strictly longer timeout and strictly fewer retries. */
  lemma TimeoutUpRetriesDown(a: Complexity, b: Complexity)
    requires Level(a) < Level(b)
    ensures TimeoutFor(a) < TimeoutFor(b)
    ensures RetriesFor(a) > RetriesFor(b)
  {
  }

  /** Some node has the input property `key`. */
  predicate AnyInputKey(nodes: seq<DetectorNode>, key: string) {
    exists i :: 0 <= i < |nodes| && key in nodes[i].inputKeys
  }

  predicate MentionsEmail(n: DetectorNode) {
    "email" in n.inputKeys || Contains(ToLower(n.caption), "email")
  }

  predicate MentionsContract(n: DetectorNode) {
    Contains(ToLower(n.node.prompt), "contrato") || Contains(ToLower(n.caption), "contrato")
  }

  const HrLegalCategory := "RH & Jurídico"

  /** `inferCategory`: a contract, a file or an e-mail makes the agent an HR and legal one. */
  function InferCategory(agent: Agent): (category: string)
    ensures category == HrLegalCategory <==>
      (exists i :: 0 <= i < |agent.nodes| && MentionsContract(agent.nodes[i]))
      || AnyInputKey(agent.nodes, "file") || AnyInputKey(agent.nodes, "documentos")
      || (exists i :: 0 <= i < |agent.nodes| && MentionsEmail(agent.nodes[i]))
    ensures category != HrLegalCategory ==> category == "custom"
  {
    var contract := exists i :: 0 <= i < |agent.nodes| && MentionsContract(agent.nodes[i]);
    var file := AnyInputKey(agent.nodes, "file") || AnyInputKey(agent.nodes, "documentos");
    var email := exists i :: 0 <= i < |agent.nodes| && MentionsEmail(agent.nodes[i]);
    if contract || file || email then HrLegalCategory else "custom"
  }

  /** The first node with the given `data.nodeType`. */
  function FirstOfType(nodes: seq<DetectorNode>, t: string): (r: Option<DetectorNode>)
    ensures r.Some? ==> r.value in nodes && r.value.node.nodeType == t
    ensures r.None? <==> CountType(nodes, t) == 0
  {
    if |nodes| == 0 then None
    else if nodes[0].node.nodeType == t then Some(nodes[0])
    else
      assert forall i :: 1 <= i < |nodes| ==> nodes[i] == nodes[1..][i - 1];
      FirstOfType(nodes[1..], t)
  }

  /** `detectAgentType`: the agent's own category wins over the inferred one. */
  function DetectAgentType(agent: Agent): (s: TestStrategy)
    ensures agent.category != "" ==> s.category == agent.category
    ensures agent.category == "" ==> s.category == InferCategory(agent)
    ensures s.complexity == DetermineComplexity(agent)
    ensures s.testTimeout == TimeoutFor(s.complexity) && s.retries == RetriesFor(s.complexity)
    ensures CountType(agent.nodes, "input") == 0 ==> s.requiredInputs == []
    ensures CountType(agent.nodes, "output") == 0 ==> s.expectedOutputs == []
  {
    var complexity := DetermineComplexity(agent);
    var input := FirstOfType(agent.nodes, "input");
    var output := FirstOfType(agent.nodes, "output");
    TestStrategy(
      if agent.category != "" then agent.category else InferCategory(agent),
      ExtractNodeTypes(agent),
      ExtractProviders(agent),
      complexity,
      if input.Some? then input.value.inputKeys else [],
      if output.Some? then output.value.outputKeys else [],
      TimeoutFor(complexity),
      RetriesFor(complexity),
      ValidationsFor(complexity))
  }

  // ---------------------------------------------------------------------------
  // Validation
  // ---------------------------------------------------------------------------

  function Valid(warnings: seq<string>): ValidationResult {
    ValidationResult(true, None, warnings)
  }

  function Invalid(error: string): ValidationResult {
    ValidationResult(false, Some(error), [])
  }

  const NoNodesError := "Agente deve ter pelo menos um nó"
  const NoEdgesError := "Agente deve ter pelo menos uma conexão"
  const NoInputError := "Agente deve ter pelo menos um nó de entrada"
  const NoOutputError := "Agente deve ter pelo menos um nó de saída"

  /** `validateAgentStructure`: nodes, then edges, then an input node, then an output node. */
  function ValidateAgentStructure(agent: Agent): (r: ValidationResult)
    ensures r.valid <==>
      |agent.nodes| > 0 && |agent.edges| > 0
      && CountType(agent.nodes, "input") > 0 && CountType(agent.nodes, "output") > 0
    ensures r.valid ==> r.error.None? && r.warnings == []
    ensures !r.valid ==> r.error.Some?
    ensures |agent.nodes| == 0 ==> r.error == Some(NoNodesError)
    ensures |agent.nodes| > 0 && |agent.edges| == 0 ==> r.error == Some(NoEdgesError)
    ensures |agent.nodes| > 0 && |agent.edges| > 0 && CountType(agent.nodes, "input") == 0 ==>
              r.error == Some(NoInputError)
    ensures (|agent.nodes| > 0 && |agent.edges| > 0 && CountType(agent.nodes, "input") > 0
             && CountType(agent.nodes, "output") == 0) ==>
              r.error == Some(NoOutputError)
  {
    if |agent.nodes| == 0 then Invalid(NoNodesError)
    else if |agent.edges| == 0 then Invalid(NoEdgesError)
    else if CountType(agent.nodes, "input") == 0 then Invalid(NoInputError)
    else if CountType(agent.nodes, "output") == 0 then Invalid(NoOutputError)
    else Valid([])
  }

  function NodeIdSet(nodes: seq<DetectorNode>): (ids: set<string>)
    ensures forall i :: 0 <= i < |nodes| ==> nodes[i].node.id in ids
    ensures forall x :: x in ids ==> exists i :: 0 <= i < |nodes| && nodes[i].node.id == x
  {
    set i | 0 <= i < |nodes| :: nodes[i].node.id
  }

  /** An edge whose source or target is not a node id. */
  predicate Dangling(e: Edge, ids: set<string>) {
    e.source !in ids || e.target !in ids
  }

  /** The index of the first edge with an unknown endpoint. */
  function FirstDangling(edges: seq<Edge>, ids: set<string>): (r: Option<nat>)
    ensures r.None? <==> forall i :: 0 <= i < |edges| ==> !Dangling(edges[i], ids)
    ensures r.Some? ==>
              r.value < |edges| && Dangling(edges[r.value], ids)
              && forall j :: 0 <= j < r.value ==> !Dangling(edges[j], ids)
  {
    if |edges| == 0 then None
    else if Dangling(edges[0], ids) then Some(0)
    else
      var r := FirstDangling(edges[1..], ids);
      assert forall i :: 1 <= i < |edges| ==> edges[i] == edges[1..][i - 1];
      if r.Some? then Some(r.value + 1) else None
  }

  /** The error for a dangling edge: its unknown source, else its unknown target. */
  function DanglingError(e: Edge, ids: set<string>): string {
    if e.source !in ids then "Nó fonte '" + e.source + "' não encontrado"
    else "Nó destino '" + e.target + "' não encontrado"
  }

  /** The ids any edge touches. */
  function ConnectedIds(edges: seq<Edge>): (ids: set<string>)
    ensures forall i :: 0 <= i < |edges| ==> edges[i].source in ids && edges[i].target in ids
    ensures forall x :: x in ids ==> exists i :: 0 <= i < |edges| && (edges[i].source == x || edges[i].target == x)
  {
    (set i | 0 <= i < |edges| :: edges[i].source) + (set i | 0 <= i < |edges| :: edges[i].target)
  }

  /** The ids of the nodes no edge touches, in node order. */
  function OrphanIds(nodes: seq<DetectorNode>, connected: set<string>): (ids: seq<string>)
    ensures forall k :: 0 <= k < |ids| ==> ids[k] !in connected
    ensures forall i :: 0 <= i < |nodes| && nodes[i].node.id !in connected ==> nodes[i].node.id in ids
  {
    if |nodes| == 0 then []
    else
      assert forall i :: 1 <= i < |nodes| ==> nodes[i] == nodes[1..][i - 1];
      (if nodes[0].node.id !in connected then [nodes[0].node.id] else []) + OrphanIds(nodes[1..], connected)
  }

  const OrphanWarningInfix := " nó(s) não conectado(s): "

  /**
    `validateNodeConnections`: invalid at the first edge with an unknown
    endpoint; otherwise valid, with one warning listing the nodes no edge
    touches when there are any.
   */
  function ValidateNodeConnections(agent: Agent): (r: ValidationResult)
    ensures r.valid <==> forall i :: 0 <= i < |agent.edges| ==> !Dangling(agent.edges[i], NodeIdSet(agent.nodes))
    ensures !r.valid ==>
              var i := FirstDangling(agent.edges, NodeIdSet(agent.nodes));
              i.Some? && r.error == Some(DanglingError(agent.edges[i.value], NodeIdSet(agent.nodes)))
    ensures r.valid ==>
      (|r.warnings| == 1 <==> exists i :: 0 <= i < |agent.nodes| && agent.nodes[i].node.id !in ConnectedIds(agent.edges))
    ensures |r.warnings| <= 1
  {
    var ids := NodeIdSet(agent.nodes);
    var dangling := FirstDangling(agent.edges, ids);
    if dangling.Some? then Invalid(DanglingError(agent.edges[dangling.value], ids))
    else
      var orphans := OrphanIds(agent.nodes, ConnectedIds(agent.edges));
      assert |orphans| > 0 <==> exists i :: 0 <= i < |agent.nodes| && agent.nodes[i].node.id !in ConnectedIds(agent.edges) by {
        if |orphans| > 0 {
          OrphanIdsFromNodes(agent.nodes, ConnectedIds(agent.edges), 0);
        }
      }
      Valid(if |orphans| > 0
            then [NatToString(|orphans|) + OrphanWarningInfix + Join(orphans, ", ")]
            else [])
  }

  /** Every orphan id is the id of a node. */
  lemma {:induction false} OrphanIdsFromNodes(nodes: seq<DetectorNode>, connected: set<string>, k: int)
    requires 0 <= k < |OrphanIds(nodes, connected)|
    ensures exists i :: 0 <= i < |nodes| && nodes[i].node.id == OrphanIds(nodes, connected)[k]
  {
    var here := if nodes[0].node.id !in connected then [nodes[0].node.id] else [];
    if k >= |here| {
      OrphanIdsFromNodes(nodes[1..], connected, k - |here|);
      var i :| 0 <= i < |nodes[1..]| && nodes[1..][i].node.id == OrphanIds(nodes[1..], connected)[k - |here|];
      assert nodes[i + 1] == nodes[1..][i];
    }
  }

  /** `validateDataFlow`: an input node, then an output node. */
  function ValidateDataFlow(agent: Agent): (r: ValidationResult)
    ensures r.valid <==> CountType(agent.nodes, "input") > 0 && CountType(agent.nodes, "output") > 0
    ensures r.warnings == []
  {
    if CountType(agent.nodes, "input") == 0 then Invalid("Fluxo deve começar com nó de entrada")
    else if CountType(agent.nodes, "output") == 0 then Invalid("Fluxo deve terminar com nó de saída")
    else Valid([])
  }

  function NoPromptWarning(id: string): string {
    "Nó AI '" + id + "' sem prompt definido"
  }

  function NoProviderWarning(id: string): string {
    "Nó AI '" + id + "' sem provedor definido"
  }

  /** `w` is the warning about a missing prompt or provider of some AI node. */
  predicate WarnsAbout(nodes: seq<DetectorNode>, w: string) {
    exists i :: 0 <= i < |nodes| && nodes[i].node.nodeType == "ai" &&
      ((nodes[i].node.prompt == "" && w == NoPromptWarning(nodes[i].node.id))
       || (nodes[i].node.provider == "" && w == NoProviderWarning(nodes[i].node.id)))
  }

  /** A warning about the tail is a warning about the whole sequence. */
  lemma WarnsAboutTail(nodes: seq<DetectorNode>, w: string)
    requires |nodes| > 0 && WarnsAbout(nodes[1..], w)
    ensures WarnsAbout(nodes, w)
  {
    var i :| 0 <= i < |nodes[1..]| && nodes[1..][i].node.nodeType == "ai" &&
      ((nodes[1..][i].node.prompt == "" && w == NoPromptWarning(nodes[1..][i].node.id))
       || (nodes[1..][i].node.provider == "" && w == NoProviderWarning(nodes[1..][i].node.id)));
    assert nodes[i + 1] == nodes[1..][i];
  }

  /** The warnings about one node: its missing prompt, then its missing provider, when it is an AI node. */
  function NodeWarnings(n: AgentNode): (w: seq<string>)
    ensures n.nodeType != "ai" ==> w == []
    ensures n.nodeType == "ai" && n.prompt == "" ==> NoPromptWarning(n.id) in w
    ensures n.nodeType == "ai" && n.provider == "" ==> NoProviderWarning(n.id) in w
    ensures |w| <= 2
  {
    if n.nodeType == "ai"
    then (if n.prompt == "" then [NoPromptWarning(n.id)] else [])
         + (if n.provider == "" then [NoProviderWarning(n.id)] else [])
    else []
  }

  /**
    One warning per missing prompt and per missing provider of each AI
    node, in node order: every AI node lacking a prompt or a provider is
    warned about by id.
   */
  function AiNodeWarnings(nodes: seq<DetectorNode>): (warnings: seq<string>)
    ensures (forall i :: 0 <= i < |nodes| && nodes[i].node.nodeType == "ai" ==>
               nodes[i].node.prompt != "" && nodes[i].node.provider != "") ==> warnings == []
    ensures |warnings| <= 2 * CountType(nodes, "ai")
    ensures forall i :: 0 <= i < |nodes| && nodes[i].node.nodeType == "ai" && nodes[i].node.prompt == ""
              ==> NoPromptWarning(nodes[i].node.id) in warnings
    ensures forall i :: 0 <= i < |nodes| && nodes[i].node.nodeType == "ai" && nodes[i].node.provider == ""
              ==> NoProviderWarning(nodes[i].node.id) in warnings
  {
    if |nodes| == 0 then []
    else
      assert forall i :: 1 <= i < |nodes| ==> nodes[i] == nodes[1..][i - 1];
      NodeWarnings(nodes[0].node) + AiNodeWarnings(nodes[1..])
  }

  /** A warning about the first node is a warning about the sequence. */
  lemma WarnsAboutHead(nodes: seq<DetectorNode>, k: nat)
    requires |nodes| > 0 && k < |NodeWarnings(nodes[0].node)|
    ensures WarnsAbout(nodes, NodeWarnings(nodes[0].node)[k])
  {
    var n := nodes[0].node;
    var w := NodeWarnings(n)[k];
    assert n.nodeType == "ai";
    if n.prompt == "" && k == 0 {
      assert w == NoPromptWarning(n.id);
    } else {
      assert n.provider == "" && w == NoProviderWarning(n.id);
    }
  }

  /** Every warning is about an AI node of the list that lacks a prompt or a provider. */
  lemma {:induction false} AiNodeWarningsSound(nodes: seq<DetectorNode>)
    ensures forall k :: 0 <= k < |AiNodeWarnings(nodes)| ==> WarnsAbout(nodes, AiNodeWarnings(nodes)[k])
  {
    if |nodes| > 0 {
      AiNodeWarningsSound(nodes[1..]);
      var here := NodeWarnings(nodes[0].node);
      var rest := AiNodeWarnings(nodes[1..]);
      assert AiNodeWarnings(nodes) == here + rest;
      forall k | 0 <= k < |here| ensures WarnsAbout(nodes, here[k]) {
        WarnsAboutHead(nodes, k);
      }
      WarnsAboutJoin(nodes, here, rest);
    }
  }

  /** Warnings about the whole list followed by warnings about its tail are all about the list. */
  lemma WarnsAboutJoin(nodes: seq<DetectorNode>, here: seq<string>, rest: seq<string>)
    requires |nodes| > 0
    requires forall k :: 0 <= k < |here| ==> WarnsAbout(nodes, here[k])
    requires forall k :: 0 <= k < |rest| ==> WarnsAbout(nodes[1..], rest[k])
    ensures forall k :: 0 <= k < |here + rest| ==> WarnsAbout(nodes, (here + rest)[k])
  {
    forall k | |here| <= k < |here + rest| ensures WarnsAbout(nodes, (here + rest)[k]) {
      assert (here + rest)[k] == rest[k - |here|];
      WarnsAboutTail(nodes, rest[k - |here|]);
    }
  }

  /** `validateSchemaCompatibility`: always valid; warns about AI nodes lacking a prompt or a provider. */
  function ValidateSchemaCompatibility(agent: Agent): (r: ValidationResult)
    ensures r.valid && r.error.None?
    ensures r.warnings == AiNodeWarnings(agent.nodes)
  {
    Valid(AiNodeWarnings(agent.nodes))
  }

  /** One warning per empty provider name. */
  function EmptyProviderWarnings(providers: seq<string>): (warnings: seq<string>)
    ensures |warnings| <= |providers|
    ensures (forall k :: 0 <= k < |providers| ==> providers[k] != "") ==> warnings == []
  {
    if |providers| == 0 then []
    else (if providers[0] == "" then ["Provedor de IA não especificado"] else []) + EmptyProviderWarnings(providers[1..])
  }

  /**
    `validateProviderCredentials`: warns about empty provider names, but
    the providers it checks were already filtered to named ones.
   */
  function ValidateProviderCredentials(agent: Agent): (r: ValidationResult)
    ensures r.valid && r.error.None?
    ensures r.warnings == []
  {
    Valid(EmptyProviderWarnings(ExtractProviders(agent)))
  }

  /** `v.error || 'Erro desconhecido'`. */
  function ErrorOf(kind: string, v: ValidationResult): ValidationError {
    ValidationError(kind, if v.error.Some? && v.error.value != "" then v.error.value else "Erro desconhecido")
  }

  /** An error for each failed validation, in order. */
  function FailedOf(vs: seq<(string, ValidationResult)>): (errors: seq<ValidationError>)
    ensures |errors| == 0 <==> forall i :: 0 <= i < |vs| ==> vs[i].1.valid
    ensures |errors| <= |vs|
  {
    if |vs| == 0 then []
    else
      assert forall i :: 1 <= i < |vs| ==> vs[i] == vs[1..][i - 1];
      (if !vs[0].1.valid then [ErrorOf(vs[0].0, vs[0].1)] else []) + FailedOf(vs[1..])
  }

  /** The verdict on the five validation results, in the order `validateAgent` lists them. */
  function Combine(structure: ValidationResult, connections: ValidationResult, dataFlow: ValidationResult,
                   schemas: ValidationResult, providers: ValidationResult, strategy: TestStrategy): (r: AgentValidation)
    ensures r.isValid <==> |r.errors| == 0
    ensures r.isValid <==> structure.valid && connections.valid && dataFlow.valid && schemas.valid && providers.valid
    ensures |r.errors| <= 5
    ensures structure.warnings == [] && dataFlow.warnings == [] && providers.warnings == [] ==>
              r.warnings == connections.warnings + schemas.warnings
    ensures r.strategy == strategy
  {
    var vs := [("structure", structure), ("connections", connections), ("dataFlow", dataFlow),
               ("schemas", schemas), ("providers", providers)];
    var errors := FailedOf(vs);
    assert vs[0].1 == structure && vs[1].1 == connections && vs[2].1 == dataFlow;
    assert vs[3].1 == schemas && vs[4].1 == providers;
    var warnings := structure.warnings + connections.warnings + dataFlow.warnings + schemas.warnings + providers.warnings;
    assert structure.warnings == [] && dataFlow.warnings == [] && providers.warnings == [] ==>
             warnings == connections.warnings + schemas.warnings by {
      if structure.warnings == [] && dataFlow.warnings == [] && providers.warnings == [] {
        assert warnings == [] + connections.warnings + [] + schemas.warnings + [];
      }
    }
    AgentValidation(|errors| == 0, errors, warnings, strategy)
  }

  /**
    `validateAgent`. Only the structure and the connections can fail: the
    data-flow check asks for less than the structure check, and the other
    two always pass.
   */
  function ValidateAgent(agent: Agent): (r: AgentValidation)
    ensures r.isValid <==> |r.errors| == 0
    ensures r.isValid <==> ValidateAgentStructure(agent).valid && ValidateNodeConnections(agent).valid
    ensures r.isValid ==> r.warnings == ValidateNodeConnections(agent).warnings + AiNodeWarnings(agent.nodes)
    ensures r.strategy == DetectAgentType(agent)
  {
    var structure := ValidateAgentStructure(agent);
    var dataFlow := ValidateDataFlow(agent);
    var connections := ValidateNodeConnections(agent);
    var schemas := ValidateSchemaCompatibility(agent);
    var providers := ValidateProviderCredentials(agent);
    var r := Combine(structure, connections, dataFlow, schemas, providers, DetectAgentType(agent));
    assert structure.valid ==> dataFlow.valid;
    r
  }
}
