/**
  The sequential parts of the main runtime engine: the depth-first execution
  order from the input node, the structural validation of an agent, the
  prompt assembled for an AI node, the phone helper offered to
  transformation code, and the choice of the final output of a run.
 */
module RuntimeEngine {
  import opened StringUtil
  import opened Options
  import opened Workflow

  // ---------------------------------------------------------------------------
  // Depth-first execution order
  // ---------------------------------------------------------------------------

  /** The ids some edge points to: every id the walk can step to. */
  function Universe(edges: seq<Edge>): set<string> {
    set e | e in edges :: e.target
  }

  /** `edges.filter(e => e.source === id)`, as the list of their targets. */
  function Successors(edges: seq<Edge>, id: string): (r: seq<string>)
    ensures forall i :: 0 <= i < |r| ==> Edge(id, r[i]) in edges
  {
    if |edges| == 0 then []
    else (if edges[0].source == id then [edges[0].target] else []) + Successors(edges[1..], id)
  }

  lemma {:induction false} SuccessorsInUniverse(edges: seq<Edge>, id: string)
    ensures forall i :: 0 <= i < |Successors(edges, id)| ==> Successors(edges, id)[i] in Universe(edges)
  {
    var r := Successors(edges, id);
    forall i | 0 <= i < |r| ensures r[i] in Universe(edges) {
      assert Edge(id, r[i]) in edges;
    }
  }

  lemma {:induction false} SmallerRemainder(u: set<string>, v: set<string>, w: set<string>)
    requires v <= w
    ensures |u - w| <= |u - v|
  {
    assert u - w <= u - v;
    SubsetCardinality(u - w, u - v);
  }

  lemma {:induction false} VisitShrinks(u: set<string>, v: set<string>, id: string)
    requires id in u && id !in v
    ensures |u - (v + {id})| < |u - v|
  {
    assert u - v == (u - (v + {id})) + {id};
  }

  /**
    `dfsOrder(id)` with the ids already in `visited`: the ids it pushes, in
    order. A visited id pushes nothing; otherwise the id is pushed and the
    walk goes on into the targets of its outgoing edges, in edge order.
   */
  function Dfs(edges: seq<Edge>, id: string, visited: set<string>): (r: seq<string>)
    requires id in Universe(edges)
    ensures NoDuplicates(r)
    ensures forall i :: 0 <= i < |r| ==> r[i] !in visited && r[i] in Universe(edges)
    ensures id !in visited ==> |r| > 0 && r[0] == id
    decreases |Universe(edges) - visited|, 0, 0
  {
    if id in visited then []
    else
      var ts := Successors(edges, id);
      SuccessorsInUniverse(edges, id);
      VisitShrinks(Universe(edges), visited, id);
      var rest := Walk(edges, ts, visited + {id});
      NoDuplicatesAppend([id], rest);
      [id] + rest
  }

  /** The `for` loop over the outgoing edges: each target in turn, sharing `visited`. */
  function Walk(edges: seq<Edge>, ts: seq<string>, visited: set<string>): (r: seq<string>)
    requires forall i :: 0 <= i < |ts| ==> ts[i] in Universe(edges)
    ensures NoDuplicates(r)
    ensures forall i :: 0 <= i < |r| ==> r[i] !in visited && r[i] in Universe(edges)
    decreases |Universe(edges) - visited|, 1, |ts|
  {
    if |ts| == 0 then []
    else
      var first := Dfs(edges, ts[0], visited);
      SmallerRemainder(Universe(edges), visited, visited + ToSet(first));
      var rest := Walk(edges, ts[1..], visited + ToSet(first));
      NoDuplicatesAppend(first, rest);
      first + rest
  }

  /** `p` is a walk along the edges: every step is an edge. */
  predicate IsPath(edges: seq<Edge>, p: seq<string>) {
    |p| > 0 && forall k :: 0 <= k < |p| - 1 ==> Edge(p[k], p[k + 1]) in edges
  }

  /** Some walk along the edges leads from `a` to `b`. */
  ghost predicate Reachable(edges: seq<Edge>, a: string, b: string) {
    exists p :: IsPath(edges, p) && p[0] == a && p[|p| - 1] == b
  }

  lemma ReachableSelf(edges: seq<Edge>, a: string)
    ensures Reachable(edges, a, a)
  {
    assert IsPath(edges, [a]);
  }

  lemma ReachableStep(edges: seq<Edge>, a: string, t: string, b: string)
    requires Edge(a, t) in edges && Reachable(edges, t, b)
    ensures Reachable(edges, a, b)
  {
    var p :| IsPath(edges, p) && p[0] == t && p[|p| - 1] == b;
    var q := [a] + p;
    assert forall k :: 1 <= k < |q| - 1 ==> q[k] == p[k - 1] && q[k + 1] == p[k];
    assert IsPath(edges, q);
  }

  /** Every id the walk from `id` pushes can be reached from `id`. */
  lemma {:induction false} DfsReaches(edges: seq<Edge>, id: string, visited: set<string>, x: string)
    requires id in Universe(edges) && x in Dfs(edges, id, visited)
    ensures Reachable(edges, id, x)
    decreases |Universe(edges) - visited|, 0, 0
  {
    if x == id {
      ReachableSelf(edges, id);
    } else {
      var ts := Successors(edges, id);
      SuccessorsInUniverse(edges, id);
      VisitShrinks(Universe(edges), visited, id);
      assert x in Walk(edges, ts, visited + {id});
      WalkReaches(edges, ts, visited + {id}, x);
      var i :| 0 <= i < |ts| && Reachable(edges, ts[i], x);
      ReachableStep(edges, id, ts[i], x);
    }
  }

  lemma {:induction false} WalkReaches(edges: seq<Edge>, ts: seq<string>, visited: set<string>, x: string)
    requires forall i :: 0 <= i < |ts| ==> ts[i] in Universe(edges)
    requires x in Walk(edges, ts, visited)
    ensures exists i :: 0 <= i < |ts| && Reachable(edges, ts[i], x)
    decreases |Universe(edges) - visited|, 1, |ts|
  {
    var first := Dfs(edges, ts[0], visited);
    SmallerRemainder(Universe(edges), visited, visited + ToSet(first));
    var rest := Walk(edges, ts[1..], visited + ToSet(first));
    assert Walk(edges, ts, visited) == first + rest;
    if x in first {
      DfsReaches(edges, ts[0], visited, x);
      SomeReaches(edges, ts, 0, x);
    } else {
      assert x in rest;
      WalkReaches(edges, ts[1..], visited + ToSet(first), x);
      LaterReaches(edges, ts, x);
    }
  }

  lemma SomeReaches(edges: seq<Edge>, ts: seq<string>, i: nat, x: string)
    requires i < |ts| && Reachable(edges, ts[i], x)
    ensures exists j :: 0 <= j < |ts| && Reachable(edges, ts[j], x)
  {
  }

  lemma LaterReaches(edges: seq<Edge>, ts: seq<string>, x: string)
    requires |ts| > 0 && exists i :: 0 <= i < |ts[1..]| && Reachable(edges, ts[1..][i], x)
    ensures exists j :: 0 <= j < |ts| && Reachable(edges, ts[j], x)
  {
    var i :| 0 <= i < |ts[1..]| && Reachable(edges, ts[1..][i], x);
    SomeReaches(edges, ts, i + 1, x);
  }

  /**
    `getExecutionOrder`: the depth-first order from the first input node,
    or nothing when no node is of type `input`.
   */
  function DfsExecutionOrder(nodes: seq<AgentNode>, edges: seq<Edge>): (r: seq<string>)
    ensures NoDuplicates(r)
    ensures |OfType(nodes, "input")| > 0 ==> |r| > 0 && r[0] == OfType(nodes, "input")[0].id
  {
    var inputs := OfType(nodes, "input");
    if |inputs| == 0 then []
    else
      var root := inputs[0].id;
      var ts := Successors(edges, root);
      SuccessorsInUniverse(edges, root);
      var rest := Walk(edges, ts, {root});
      NoDuplicatesAppend([root], rest);
      [root] + rest
  }

  /** The order is empty exactly when the agent has no input node. */
  lemma DfsExecutionOrderEmpty(nodes: seq<AgentNode>, edges: seq<Edge>)
    ensures DfsExecutionOrder(nodes, edges) == [] <==> forall i :: 0 <= i < |nodes| ==> nodes[i].nodeType != "input"
  {
    if exists i :: 0 <= i < |nodes| && nodes[i].nodeType == "input" {
      var i :| 0 <= i < |nodes| && nodes[i].nodeType == "input";
      OfTypeComplete(nodes, "input", i);
    }
  }

  /** Every id in the order can be reached from the input node the order starts with. */
  lemma {:induction false} DfsExecutionOrderReachable(nodes: seq<AgentNode>, edges: seq<Edge>, k: int)
    requires 0 <= k < |DfsExecutionOrder(nodes, edges)|
    ensures Reachable(edges, DfsExecutionOrder(nodes, edges)[0], DfsExecutionOrder(nodes, edges)[k])
  {
    var r := DfsExecutionOrder(nodes, edges);
    var root := OfType(nodes, "input")[0].id;
    var ts := Successors(edges, root);
    SuccessorsInUniverse(edges, root);
    if k == 0 {
      ReachableSelf(edges, root);
    } else {
      assert r[k] in Walk(edges, ts, {root});
      WalkReaches(edges, ts, {root}, r[k]);
      var i :| 0 <= i < |ts| && Reachable(edges, ts[i], r[k]);
      ReachableStep(edges, root, ts[i], r[k]);
    }
  }

  // ---------------------------------------------------------------------------
  // Structural validation of an agent
  // ---------------------------------------------------------------------------

  /** An agent as validation sees it; a missing `nodes` or `edges` array is `None`. */
  datatype Agent = Agent(name: string, nodes: Option<seq<AgentNode>>, edges: Option<seq<Edge>>)

  datatype AgentCheck = AgentCheck(isValid: bool, errors: seq<string>)

  const NameRequired := "Nome do agente é obrigatório"
  const NodesRequired := "Agente deve ter pelo menos um nó"
  const EdgesRequired := "Agente deve ter definição de conexões"
  const NoInputNode := "Agente deve ter pelo menos um nó de entrada (input)"
  const ManyInputNodes := "Agente deve ter apenas um nó de entrada (input)"
  const NoOutputNode := "Agente deve ter pelo menos um nó de saída (output)"

  /** `node.id || index + 1`: how messages name a node. */
  function NodeName(n: AgentNode, index: nat): string {
    if n.id == "" then NatToString(index + 1) else n.id
  }

  function MissingIdMessage(index: nat): string {
    "Nó " + NatToString(index + 1) + " deve ter um ID"
  }

  function MissingTypeMessage(name: string): string {
    "Nó " + name + " deve ter um tipo definido"
  }

  function MissingPromptMessage(name: string): string {
    "Nó AI " + name + " deve ter um prompt definido"
  }

  function MissingProviderMessage(name: string): string {
    "Nó AI " + name + " deve ter um provedor de IA definido"
  }

  function MissingModelMessage(name: string): string {
    "Nó AI " + name + " deve ter um modelo definido"
  }

  function MissingEndpointMessage(name: string): string {
    "Nó API " + name + " deve ter um endpoint definido"
  }

  function MissingLogicMessage(name: string): string {
    "Nó Logic " + name + " deve ter um tipo de lógica definido"
  }

  function BadSourceMessage(index: nat, source: string): string {
    "Conexão " + NatToString(index + 1) + " tem origem inválida: " + source
  }

  function BadTargetMessage(index: nat, target: string): string {
    "Conexão " + NatToString(index + 1) + " tem destino inválido: " + target
  }

  function NoIncomingMessage(id: string): string {
    "Nó " + id + " não possui conexões de entrada"
  }

  function NoOutgoingMessage(id: string): string {
    "Nó de entrada " + id + " deve ter pelo menos uma conexão de saída"
  }

  /** A node carries everything its type needs. */
  predicate NodeComplete(n: AgentNode) {
    && n.id != ""
    && n.nodeType != ""
    && (n.nodeType == "ai" ==> Trim(n.prompt) != "" && n.provider != "" && n.model != "")
    && (n.nodeType == "api" ==> Trim(n.apiEndpoint) != "")
    && (n.nodeType == "logic" ==> n.logicType != "")
  }

  /** The messages about one node, at position `index`. */
  function NodeErrors(n: AgentNode, index: nat): (errs: seq<string>)
    ensures errs == [] <==> NodeComplete(n)
  {
    var name := NodeName(n, index);
    (if n.id == "" then [MissingIdMessage(index)] else [])
    + (if n.nodeType == "" then [MissingTypeMessage(name)] else [])
    + (if n.nodeType == "ai" && Trim(n.prompt) == "" then [MissingPromptMessage(name)] else [])
    + (if n.nodeType == "ai" && n.provider == "" then [MissingProviderMessage(name)] else [])
    + (if n.nodeType == "ai" && n.model == "" then [MissingModelMessage(name)] else [])
    + (if n.nodeType == "api" && Trim(n.apiEndpoint) == "" then [MissingEndpointMessage(name)] else [])
    + (if n.nodeType == "logic" && n.logicType == "" then [MissingLogicMessage(name)] else [])
  }

  /** The messages about `nodes[from..]`, node by node. */
  function AllNodeErrors(nodes: seq<AgentNode>, from: nat): seq<string>
    decreases |nodes| - from
  {
    if from >= |nodes| then [] else NodeErrors(nodes[from], from) + AllNodeErrors(nodes, from + 1)
  }

  lemma {:induction false} AllNodeErrorsEmpty(nodes: seq<AgentNode>, from: nat)
    ensures AllNodeErrors(nodes, from) == [] <==> forall k :: from <= k < |nodes| ==> NodeComplete(nodes[k])
    decreases |nodes| - from
  {
    if from < |nodes| {
      AllNodeErrorsEmpty(nodes, from + 1);
      var here := NodeErrors(nodes[from], from);
      var rest := AllNodeErrors(nodes, from + 1);
      assert AllNodeErrors(nodes, from) == here + rest;
      assert |here + rest| == |here| + |rest|;
    }
  }

  /** An edge whose endpoints are both present and name listed nodes. */
  predicate EdgeValid(e: Edge, ids: seq<string>) {
    e.source != "" && e.source in ids && e.target != "" && e.target in ids
  }

  function EdgeErrors(e: Edge, index: nat, ids: seq<string>): (errs: seq<string>)
    ensures errs == [] <==> EdgeValid(e, ids)
  {
    (if e.source == "" || e.source !in ids then [BadSourceMessage(index, e.source)] else [])
    + (if e.target == "" || e.target !in ids then [BadTargetMessage(index, e.target)] else [])
  }

  function AllEdgeErrors(edges: seq<Edge>, from: nat, ids: seq<string>): seq<string>
    decreases |edges| - from
  {
    if from >= |edges| then [] else EdgeErrors(edges[from], from, ids) + AllEdgeErrors(edges, from + 1, ids)
  }

  lemma {:induction false} AllEdgeErrorsEmpty(edges: seq<Edge>, from: nat, ids: seq<string>)
    ensures AllEdgeErrors(edges, from, ids) == [] <==> forall k :: from <= k < |edges| ==> EdgeValid(edges[k], ids)
    decreases |edges| - from
  {
    if from < |edges| {
      AllEdgeErrorsEmpty(edges, from + 1, ids);
    }
  }

  /** Every message about an edge at or after `from` is among the messages. */
  lemma {:induction false} EdgeErrorsIncluded(edges: seq<Edge>, from: nat, ids: seq<string>, k: nat, m: string)
    requires from <= k < |edges| && m in EdgeErrors(edges[k], k, ids)
    ensures m in AllEdgeErrors(edges, from, ids)
    decreases k - from
  {
    if from < k {
      EdgeErrorsIncluded(edges, from + 1, ids, k, m);
    }
  }

  /** Non-input nodes that no edge points to. */
  function OrphanErrors(nodes: seq<AgentNode>, targets: seq<string>): seq<string> {
    if |nodes| == 0 then []
    else
      (if nodes[0].nodeType != "input" && nodes[0].id !in targets then [NoIncomingMessage(nodes[0].id)] else [])
      + OrphanErrors(nodes[1..], targets)
  }

  lemma {:induction false} OrphanErrorsEmpty(nodes: seq<AgentNode>, targets: seq<string>)
    ensures OrphanErrors(nodes, targets) == []
            <==> forall k :: 0 <= k < |nodes| && nodes[k].nodeType != "input" ==> nodes[k].id in targets
  {
    if |nodes| > 0 {
      OrphanErrorsEmpty(nodes[1..], targets);
      assert forall k :: 1 <= k < |nodes| ==> nodes[k] == nodes[1..][k - 1];
    }
  }

  lemma {:induction false} OrphanReported(nodes: seq<AgentNode>, targets: seq<string>, k: int)
    requires 0 <= k < |nodes| && nodes[k].nodeType != "input" && nodes[k].id !in targets
    ensures NoIncomingMessage(nodes[k].id) in OrphanErrors(nodes, targets)
  {
    if k > 0 {
      OrphanReported(nodes[1..], targets, k - 1);
    }
  }

  /** `edges.some(edge => edge.source === id)`. */
  predicate HasOutgoing(edges: seq<Edge>, id: string) {
    exists i :: 0 <= i < |edges| && edges[i].source == id
  }

  /** Input nodes that no edge leaves. */
  function DeadEndInputErrors(nodes: seq<AgentNode>, edges: seq<Edge>): seq<string> {
    if |nodes| == 0 then []
    else
      (if nodes[0].nodeType == "input" && !HasOutgoing(edges, nodes[0].id) then [NoOutgoingMessage(nodes[0].id)] else [])
      + DeadEndInputErrors(nodes[1..], edges)
  }

  lemma {:induction false} DeadEndInputErrorsEmpty(nodes: seq<AgentNode>, edges: seq<Edge>)
    ensures DeadEndInputErrors(nodes, edges) == []
            <==> forall k :: 0 <= k < |nodes| && nodes[k].nodeType == "input" ==> HasOutgoing(edges, nodes[k].id)
  {
    if |nodes| > 0 {
      DeadEndInputErrorsEmpty(nodes[1..], edges);
      assert forall k :: 1 <= k < |nodes| ==> nodes[k] == nodes[1..][k - 1];
    }
  }

  /** The checks on the node list as a whole. */
  function CountErrors(nodes: seq<AgentNode>): seq<string> {
    var inputs := |OfType(nodes, "input")|;
    (if inputs == 0 then [NoInputNode] else [])
    + (if inputs > 1 then [ManyInputNodes] else [])
    + (if |OfType(nodes, "output")| == 0 then [NoOutputNode] else [])
  }

  /** The checks on the node list, as a whole and node by node. */
  function NodeChecks(nodes: seq<AgentNode>): (errs: seq<string>)
    ensures |OfType(nodes, "input")| == 0 ==> NoInputNode in errs
    ensures |OfType(nodes, "input")| > 1 ==> ManyInputNodes in errs
    ensures |OfType(nodes, "output")| == 0 ==> NoOutputNode in errs
  {
    CountErrors(nodes) + AllNodeErrors(nodes, 0)
  }

  /** The checks on the edges against the node list. */
  function ConnectionChecks(nodes: seq<AgentNode>, edges: seq<Edge>): seq<string> {
    AllEdgeErrors(edges, 0, Ids(nodes)) + OrphanErrors(nodes, Targets(edges)) + DeadEndInputErrors(nodes, edges)
  }

  /** `validateAgent` of the runtime engine. */
  function ValidateAgent(a: Agent): (r: AgentCheck)
    ensures r.isValid <==> r.errors == []
    ensures Trim(a.name) == "" ==> NameRequired in r.errors
    ensures a.nodes.None? || (a.nodes.Some? && |a.nodes.value| == 0) ==> NodesRequired in r.errors
    ensures a.edges.None? ==> EdgesRequired in r.errors
    ensures a.nodes.Some? && |OfType(a.nodes.value, "input")| == 0 ==> NoInputNode in r.errors
    ensures a.nodes.Some? && |OfType(a.nodes.value, "input")| > 1 ==> ManyInputNodes in r.errors
    ensures a.nodes.Some? && |OfType(a.nodes.value, "output")| == 0 ==> NoOutputNode in r.errors
  {
    var basic :=
      (if Trim(a.name) == "" then [NameRequired] else [])
      + (if a.nodes.None? || |a.nodes.value| == 0 then [NodesRequired] else [])
      + (if a.edges.None? then [EdgesRequired] else []);
    var nodeChecks := if a.nodes.None? then [] else NodeChecks(a.nodes.value);
    var connectionChecks :=
      if a.nodes.None? || a.edges.None? then [] else ConnectionChecks(a.nodes.value, a.edges.value);
    var errors := basic + nodeChecks + connectionChecks;
    AgentCheck(|errors| == 0, errors)
  }

  /** Exactly one input node, some output node, and every node complete. */
  predicate NodesSound(nodes: seq<AgentNode>) {
    && |OfType(nodes, "input")| == 1
    && |OfType(nodes, "output")| > 0
    && (forall k :: 0 <= k < |nodes| ==> NodeComplete(nodes[k]))
  }

  /**
    Every edge joins listed nodes, every non-input node has an incoming
    edge and every input node an outgoing one.
   */
  predicate ConnectionsSound(nodes: seq<AgentNode>, edges: seq<Edge>) {
    && (forall k :: 0 <= k < |edges| ==> EdgeValid(edges[k], Ids(nodes)))
    && (forall k :: 0 <= k < |nodes| && nodes[k].nodeType != "input" ==> nodes[k].id in Targets(edges))
    && (forall k :: 0 <= k < |nodes| && nodes[k].nodeType == "input" ==> HasOutgoing(edges, nodes[k].id))
  }

  /** A structurally sound agent: a name, at least one sound node list and sound connections. */
  predicate WellFormedAgent(a: Agent) {
    && Trim(a.name) != ""
    && a.nodes.Some? && |a.nodes.value| > 0
    && a.edges.Some?
    && NodesSound(a.nodes.value)
    && ConnectionsSound(a.nodes.value, a.edges.value)
  }

  lemma {:induction false} NodeChecksSound(nodes: seq<AgentNode>)
    ensures NodeChecks(nodes) == [] <==> NodesSound(nodes)
  {
    AllNodeErrorsEmpty(nodes, 0);
  }

  lemma {:induction false} ConnectionChecksSound(nodes: seq<AgentNode>, edges: seq<Edge>)
    ensures ConnectionChecks(nodes, edges) == [] <==> ConnectionsSound(nodes, edges)
  {
    AllEdgeErrorsEmpty(edges, 0, Ids(nodes));
    OrphanErrorsEmpty(nodes, Targets(edges));
    DeadEndInputErrorsEmpty(nodes, edges);
  }

  /** The agent validates exactly when it is well formed. */
  lemma {:induction false} ValidateAgentSound(a: Agent)
    ensures ValidateAgent(a).isValid <==> WellFormedAgent(a)
  {
    if a.nodes.Some? {
      NodeChecksSound(a.nodes.value);
      if a.edges.Some? {
        ConnectionChecksSound(a.nodes.value, a.edges.value);
      }
    }
  }

  /** An edge with a missing or unknown endpoint is reported with its 1-based position. */
  lemma ValidateAgentBadEdge(a: Agent, k: nat)
    requires a.nodes.Some? && a.edges.Some? && k < |a.edges.value|
    ensures var e := a.edges.value[k];
            (e.source == "" || e.source !in Ids(a.nodes.value)) ==> BadSourceMessage(k, e.source) in ValidateAgent(a).errors
    ensures var e := a.edges.value[k];
            (e.target == "" || e.target !in Ids(a.nodes.value)) ==> BadTargetMessage(k, e.target) in ValidateAgent(a).errors
  {
    var e := a.edges.value[k];
    var ids := Ids(a.nodes.value);
    if e.source == "" || e.source !in ids {
      EdgeErrorsIncluded(a.edges.value, 0, ids, k, BadSourceMessage(k, e.source));
    }
    if e.target == "" || e.target !in ids {
      EdgeErrorsIncluded(a.edges.value, 0, ids, k, BadTargetMessage(k, e.target));
    }
  }

  /** A non-input node without an incoming edge is reported. */
  lemma ValidateAgentOrphan(a: Agent, k: nat)
    requires a.nodes.Some? && a.edges.Some? && k < |a.nodes.value|
    requires a.nodes.value[k].nodeType != "input" && a.nodes.value[k].id !in Targets(a.edges.value)
    ensures NoIncomingMessage(a.nodes.value[k].id) in ValidateAgent(a).errors
  {
    OrphanReported(a.nodes.value, Targets(a.edges.value), k);
  }

  // ---------------------------------------------------------------------------
  // The prompt sent to an AI node
  // ---------------------------------------------------------------------------

  /** What the pages/character metadata of a processed file says; a falsy number is 0. */
  datatype ExtractedData = ExtractedData(filename: string, pages: int, characterCount: int)

  /**
    The input of a node. An object input keeps the fields the prompt uses
    (falsy strings are empty) and its JSON rendering `json`, which is
    computed outside the model; anything that is neither an object nor a
    string is `OtherInput`.
   */
  datatype PromptInput =
    | ObjectInput(extractedText: string, fileProcessed: bool, extractedData: Option<ExtractedData>,
                  inputName: string, customInstructions: string, json: string)
    | TextInput(text: string)
    | OtherInput

  const MaxTextForAI := 8000
  const TruncationMarker := "...[texto truncado]"
  const ContentHeader := "\n\n=== CONTEÚDO DO CONTRATO DE TRABALHO ===\n"
  const ContentFooter := "\n=== FIM DO CONTEÚDO ==="
  const ContextHeader := "\n\nContexto dos dados de entrada:\n"
  const InstructionsHeader := "\n\n=== INSTRUÇÕES ESPECÍFICAS DO USUÁRIO ===\n"
  const InstructionsFooter := "\n=== FIM DAS INSTRUÇÕES ==="
  const InstructionsNotice := "\n\n⚠️ IMPORTANTE: Siga rigorosamente as instruções específicas acima além do prompt base."
  const TextHeader := "\n\nDados para análise: "

  /** The extracted text as sent to the model: cut to 8000 characters, with a marker when cut. */
  function TextForAI(text: string): (r: string)
    ensures |text| <= MaxTextForAI ==> r == text
    ensures |text| > MaxTextForAI ==> |r| == MaxTextForAI + |TruncationMarker| && EndsWith(r, TruncationMarker)
    ensures StartsWith(r, text[..if |text| <= MaxTextForAI then |text| else MaxTextForAI])
  {
    if |text| > MaxTextForAI then text[..MaxTextForAI] + TruncationMarker else text
  }

  function FileMetadata(data: ExtractedData, inputName: string, textForAI: string): string {
    "\n\nArquivo: " + (if data.filename != "" then data.filename else inputName)
    + "\nPáginas: " + IntToString(if data.pages != 0 then data.pages else 1)
    + "\nCaracteres: " + IntToString(if data.characterCount != 0 then data.characterCount else |textForAI|)
  }

  /** The prompt before any custom instructions are added. */
  function BasePrompt(prompt: string, input: PromptInput): (r: string)
    requires input.ObjectInput?
    ensures StartsWith(r, prompt)
  {
    StartsWithSelf(prompt);
    if input.extractedText != "" && input.fileProcessed then
      var t := TextForAI(input.extractedText);
      var body := prompt + ContentHeader + t + ContentFooter;
      StartsWithAppend(prompt, prompt, ContentHeader);
      StartsWithAppend(prompt + ContentHeader, prompt, t);
      StartsWithAppend(prompt + ContentHeader + t, prompt, ContentFooter);
      var meta := if input.extractedData.Some? then FileMetadata(input.extractedData.value, input.inputName, t) else "";
      StartsWithAppend(body, prompt, meta);
      body + meta
    else
      StartsWithAppend(prompt, prompt, ContextHeader);
      StartsWithAppend(prompt + ContextHeader, prompt, input.json);
      prompt + ContextHeader + input.json
  }

  /** Custom instructions framed by their header, footer and notice. */
  function WithInstructions(base: string, custom: string): (r: string)
    ensures StartsWith(r, base) && EndsWith(r, InstructionsNotice) && Contains(r, custom)
  {
    var head := base + InstructionsHeader + custom + InstructionsFooter;
    StartsWithSelf(base);
    StartsWithAppend(base, base, InstructionsHeader);
    StartsWithAppend(base + InstructionsHeader, base, custom);
    StartsWithAppend(base + InstructionsHeader + custom, base, InstructionsFooter);
    StartsWithAppend(head, base, InstructionsNotice);
    EndsWithConcat(head, InstructionsNotice);
    ContainsConcat(base + InstructionsHeader, custom, InstructionsFooter);
    StartsWithSelf(head);
    StartsWithAppend(head, head, InstructionsNotice);
    ContainsInPrefix(head + InstructionsNotice, head, custom);
    head + InstructionsNotice
  }

  /** `processPromptWithInput`. */
  function ProcessPromptWithInput(prompt: string, input: PromptInput): (r: string)
    ensures StartsWith(r, prompt)
    ensures input.OtherInput? ==> r == prompt
    ensures input.TextInput? ==> r == prompt + TextHeader + input.text
    ensures input.ObjectInput? && Trim(input.customInstructions) == "" ==> r == BasePrompt(prompt, input)
    ensures input.ObjectInput? && Trim(input.customInstructions) != ""
            ==> StartsWith(r, BasePrompt(prompt, input)) && EndsWith(r, InstructionsNotice)
                && Contains(r, Trim(input.customInstructions))
  {
    match input
    case OtherInput =>
      StartsWithSelf(prompt);
      prompt
    case TextInput(text) =>
      StartsWithSelf(prompt);
      StartsWithAppend(prompt, prompt, TextHeader);
      StartsWithAppend(prompt + TextHeader, prompt, text);
      prompt + TextHeader + text
    case ObjectInput(_, _, _, _, custom, _) =>
      var base := BasePrompt(prompt, input);
      if Trim(custom) == "" then base
      else
        var r := WithInstructions(base, Trim(custom));
        StartsWithTrans(r, base, prompt);
        r
  }

  /** With a processed file, the (possibly cut) text of the file is in the prompt. */
  lemma ProcessPromptCarriesFileText(prompt: string, input: PromptInput)
    requires input.ObjectInput? && input.extractedText != "" && input.fileProcessed
    ensures Contains(ProcessPromptWithInput(prompt, input), TextForAI(input.extractedText))
  {
    var t := TextForAI(input.extractedText);
    var body := prompt + ContentHeader + t + ContentFooter;
    var base := BasePrompt(prompt, input);
    ContainsConcat(prompt + ContentHeader, t, ContentFooter);
    var meta := if input.extractedData.Some? then FileMetadata(input.extractedData.value, input.inputName, t) else "";
    assert base == body + meta;
    StartsWithSelf(body);
    StartsWithAppend(body, body, meta);
    ContainsInPrefix(base, body, t);
    StartsWithSelf(base);
    ContainsInPrefix(ProcessPromptWithInput(prompt, input), base, t);
  }

  // ---------------------------------------------------------------------------
  // Helpers offered to transformation code
  // ---------------------------------------------------------------------------

  /**
    `formatPhone` on a string: `(dd) ddddd-dddd` for 11 digits,
    `(dd) dddd-dddd` for 10, anything else unchanged.
   */
  function FormatPhone(value: string): (r: string)
    ensures |DigitsOnly(value)| != 10 && |DigitsOnly(value)| != 11 ==> r == value
    ensures |DigitsOnly(value)| == 11 ==> |r| == 15 && r[0] == '(' && r[3] == ')' && r[4] == ' ' && r[10] == '-'
    ensures |DigitsOnly(value)| == 10 ==> |r| == 14 && r[0] == '(' && r[3] == ')' && r[4] == ' ' && r[9] == '-'
    ensures DigitsOnly(r) == DigitsOnly(value)
  {
    var d := DigitsOnly(value);
    if |d| == 11 then PhoneMask(d, 5)
    else if |d| == 10 then PhoneMask(d, 4)
    else value
  }

  /** `(` area code `) ` then `n` digits, `-` and the rest. */
  function PhoneMask(d: string, n: nat): (r: string)
    requires AllDigits(d) && 2 + n <= |d|
    ensures |r| == |d| + 4 && r[0] == '(' && r[3] == ')' && r[4] == ' ' && r[5 + n] == '-'
    ensures DigitsOnly(r) == d
  {
    var x1 := "(" + d[..2];
    var x2 := x1 + ")";
    var x3 := x2 + " " + d[2..2 + n];
    var r := x3 + "-" + d[2 + n..];
    DigitsAfterSeparator("", '(', d[..2]);
    assert "" + "(" + d[..2] == x1;
    DigitsOnlyAppend(x1, ")");
    DigitsOnlySeparator(')');
    DigitsAfterSeparator(x2, ' ', d[2..2 + n]);
    DigitsAfterSeparator(x3, '-', d[2 + n..]);
    assert d == d[..2] + d[2..2 + n] + d[2 + n..];
    r
  }

  /** Formatting a formatted phone number changes nothing. */
  lemma FormatPhoneIdempotent(value: string)
    ensures FormatPhone(FormatPhone(value)) == FormatPhone(value)
  {
  }

  // ---------------------------------------------------------------------------
  // The final output of a run
  // ---------------------------------------------------------------------------

  /**
    The `response` of a node result: absent, a string, or some other
    (truthy) value.
   */
  datatype Response = NoResponse | TextResponse(text: string) | DataResponse

  datatype NodeResult = NodeResult(response: Response)

  /** An executed node: its id and its `data.nodeType`. */
  datatype ExecutedNode = ExecutedNode(id: string, nodeType: string)

  /**
    What a successful run returns as `output`: an HTML document, the last
    node's response, the last node's whole result, or the context variables
    when the last node left no result.
   */
  datatype FinalOutput =
    | HtmlOutput(html: string)
    | ResponseOutput(response: Response)
    | ResultOutput(result: NodeResult)
    | VariablesOutput

  const HtmlMarker := "<!DOCTYPE html>"

  /** A string response holding an HTML document. */
  predicate IsHtml(r: Response) {
    r.TextResponse? && Contains(r.text, HtmlMarker)
  }

  /** A response JavaScript treats as true: not absent and not the empty string. */
  predicate Truthy(r: Response) {
    r.DataResponse? || (r.TextResponse? && r.text != "")
  }

  /** The node at `i` is an `ai` node whose result holds an HTML document. */
  predicate AiHtmlAt(order: seq<ExecutedNode>, results: map<string, NodeResult>, i: int)
    requires 0 <= i < |order|
  {
    order[i].nodeType == "ai" && order[i].id in results && IsHtml(results[order[i].id].response)
  }

  /**
    The backwards search over `order[..k]`: the HTML of the latest `ai`
    node holding one.
   */
  function SearchHtml(order: seq<ExecutedNode>, results: map<string, NodeResult>, k: nat): (r: Option<string>)
    requires k <= |order|
    ensures r.Some? <==> exists i :: 0 <= i < k && AiHtmlAt(order, results, i)
    ensures r.Some? ==> exists i :: 0 <= i < k && AiHtmlAt(order, results, i)
                                    && results[order[i].id].response.text == r.value
                                    && forall j :: i < j < k ==> !AiHtmlAt(order, results, j)
  {
    if k == 0 then None
    else if AiHtmlAt(order, results, k - 1) then Some(results[order[k - 1].id].response.text)
    else SearchHtml(order, results, k - 1)
  }

  /** The result recorded for the last node of the order, if any. */
  function LastResult(order: seq<ExecutedNode>, results: map<string, NodeResult>): Option<NodeResult> {
    if |order| > 0 && order[|order| - 1].id in results then Some(results[order[|order| - 1].id]) else None
  }

  /**
    The final-output choice of `executeAgent`: the last node's HTML; else
    the HTML of the latest earlier `ai` node; else the last node's response
    when it is truthy; else the last node's result; else the variables.
   */
  function SelectFinalOutput(order: seq<ExecutedNode>, results: map<string, NodeResult>): (out: FinalOutput)
    ensures LastResult(order, results).Some? && IsHtml(LastResult(order, results).value.response)
            ==> out == HtmlOutput(LastResult(order, results).value.response.text)
    ensures out.HtmlOutput? ==> Contains(out.html, HtmlMarker)
    ensures out.VariablesOutput? <==> LastResult(order, results).None? && !SearchHtml(order, results, if |order| > 0 then |order| - 1 else 0).Some?
    ensures out.ResponseOutput? ==> Truthy(out.response) && !IsHtml(out.response)
    ensures out.HtmlOutput? ==>
              (LastResult(order, results).Some? && LastResult(order, results).value.response == TextResponse(out.html))
              || exists i :: 0 <= i < |order| - 1 && AiHtmlAt(order, results, i)
                             && results[order[i].id].response.text == out.html
    ensures (LastResult(order, results).None? || !IsHtml(LastResult(order, results).value.response))
            && (forall i :: 0 <= i < |order| - 1 ==> !AiHtmlAt(order, results, i))
            ==> !out.HtmlOutput?
  {
    var last := LastResult(order, results);
    if last.Some? && IsHtml(last.value.response) then HtmlOutput(last.value.response.text)
    else
      var earlier := SearchHtml(order, results, if |order| > 0 then |order| - 1 else 0);
      if earlier.Some? then HtmlOutput(earlier.value)
      else if last.Some? && Truthy(last.value.response) then ResponseOutput(last.value.response)
      else if last.Some? then ResultOutput(last.value)
      else VariablesOutput
  }
}
