/**
  The workflow graph an agent is made of, as the runtime engines see it: a
  list of nodes, each with an id and a node type (`input`, `ai`, `api`,
  `logic`, `output`, ...), and a list of directed edges between node ids.
  Absent optional fields are the empty string.
 */
module Workflow {
  import opened StringUtil
  import opened Options

  datatype AgentNode = AgentNode(
    id: string,
    nodeType: string,
    prompt: string,
    provider: string,
    model: string,
    apiEndpoint: string,
    logicType: string)

  datatype Edge = Edge(source: string, target: string)

  /** The ids of a list of nodes, in order. */
  function Ids(nodes: seq<AgentNode>): (ids: seq<string>)
    ensures |ids| == |nodes|
    ensures forall i :: 0 <= i < |nodes| ==> ids[i] == nodes[i].id
  {
    if |nodes| == 0 then [] else [nodes[0].id] + Ids(nodes[1..])
  }

  lemma IdsAppend(a: seq<AgentNode>, b: seq<AgentNode>)
    ensures Ids(a + b) == Ids(a) + Ids(b)
  {
  }

  /** `nodes.find(n => n.id === id)`: the first node carrying `id`. */
  function FindNode(nodes: seq<AgentNode>, id: string): (r: Option<AgentNode>)
    ensures r.Some? <==> id in Ids(nodes)
    ensures r.Some? ==> r.value in nodes && r.value.id == id
  {
    if |nodes| == 0 then None
    else if nodes[0].id == id then Some(nodes[0])
    else FindNode(nodes[1..], id)
  }

  /** The node found is the one at the first index carrying the id. */
  lemma {:induction false} FindNodeFirst(nodes: seq<AgentNode>, id: string, k: int)
    requires 0 <= k < |nodes| && nodes[k].id == id
    requires forall j :: 0 <= j < k ==> nodes[j].id != id
    ensures FindNode(nodes, id) == Some(nodes[k])
  {
    if k > 0 {
      FindNodeFirst(nodes[1..], id, k - 1);
    }
  }

  /** When ids are distinct, the node found for an id is the only node with it. */
  lemma {:induction false} FindNodeUnique(nodes: seq<AgentNode>, n: AgentNode)
    requires NoDuplicates(Ids(nodes)) && n in nodes
    ensures FindNode(nodes, n.id) == Some(n)
  {
    var i :| 0 <= i < |nodes| && nodes[i] == n;
    forall j | 0 <= j < i ensures nodes[j].id != n.id {
      assert Ids(nodes)[j] != Ids(nodes)[i];
    }
    FindNodeFirst(nodes, n.id, i);
  }

  /** `nodes.filter(n => n.data?.nodeType === t)`. */
  function OfType(nodes: seq<AgentNode>, t: string): (r: seq<AgentNode>)
    ensures |r| <= |nodes|
    ensures forall i :: 0 <= i < |r| ==> r[i] in nodes && r[i].nodeType == t
  {
    if |nodes| == 0 then []
    else (if nodes[0].nodeType == t then [nodes[0]] else []) + OfType(nodes[1..], t)
  }

  /** No node of type `t` is filtered out. */
  lemma {:induction false} OfTypeComplete(nodes: seq<AgentNode>, t: string, i: int)
    requires 0 <= i < |nodes| && nodes[i].nodeType == t
    ensures nodes[i] in OfType(nodes, t)
  {
    if i > 0 {
      OfTypeComplete(nodes[1..], t, i - 1);
    }
  }

  /** The edges that leave `id`, in edge order. */
  function OutEdges(edges: seq<Edge>, id: string): (r: seq<Edge>)
    ensures forall i :: 0 <= i < |r| ==> r[i] in edges && r[i].source == id
  {
    if |edges| == 0 then []
    else (if edges[0].source == id then [edges[0]] else []) + OutEdges(edges[1..], id)
  }

  /** No edge leaving `id` is filtered out. */
  lemma {:induction false} OutEdgesComplete(edges: seq<Edge>, id: string, i: int)
    requires 0 <= i < |edges| && edges[i].source == id
    ensures edges[i] in OutEdges(edges, id)
  {
    if i > 0 {
      OutEdgesComplete(edges[1..], id, i - 1);
    }
  }

  /** The targets of a list of edges, in order. */
  function Targets(edges: seq<Edge>): (ts: seq<string>)
    ensures |ts| == |edges|
    ensures forall i :: 0 <= i < |edges| ==> ts[i] == edges[i].target
  {
    if |edges| == 0 then [] else [edges[0].target] + Targets(edges[1..])
  }

  /**
    The edges run forward along a ranking of the ids: the graph has no cycle.
    Any finite acyclic graph has such a ranking (its longest-path depth).
   */
  predicate Ranked(edges: seq<Edge>, rank: string -> nat) {
    forall i :: 0 <= i < |edges| ==> rank(edges[i].source) < rank(edges[i].target)
  }

  /** Every edge joins two listed nodes. */
  predicate EndpointsListed(nodes: seq<AgentNode>, edges: seq<Edge>) {
    forall i :: 0 <= i < |edges| ==> edges[i].source in Ids(nodes) && edges[i].target in Ids(nodes)
  }

  /** A sequence without duplicates holds each of its elements exactly once. */
  lemma {:induction false} NoDuplicatesMultiplicity<T>(s: seq<T>, x: T)
    requires NoDuplicates(s)
    ensures multiset(s)[x] == if x in s then 1 else 0
  {
    if |s| > 0 {
      assert s == [s[0]] + s[1..];
      assert NoDuplicates(s[1..]) by {
        forall i, j | 0 <= i < j < |s[1..]| ensures s[1..][i] != s[1..][j] {
          assert s[1..][i] == s[i + 1] && s[1..][j] == s[j + 1];
        }
      }
      NoDuplicatesMultiplicity(s[1..], x);
      if x == s[0] {
        assert x !in s[1..] by {
          forall i | 0 <= i < |s[1..]| ensures s[1..][i] != x { assert s[1..][i] == s[i + 1]; }
        }
      }
    }
  }

  lemma {:induction false} ElementsWithin<T>(a: seq<T>, b: seq<T>)
    requires forall i :: 0 <= i < |a| ==> a[i] in b
    ensures ToSet(a) <= ToSet(b)
  {
  }

  /** Two duplicate-free sequences with the same elements are permutations of each other. */
  lemma {:induction false} SameElementsPermutation<T>(a: seq<T>, b: seq<T>)
    requires NoDuplicates(a) && NoDuplicates(b) && ToSet(a) == ToSet(b)
    ensures multiset(a) == multiset(b)
  {
    forall x ensures multiset(a)[x] == multiset(b)[x] {
      assert x in a <==> x in ToSet(a);
      NoDuplicatesMultiplicity(a, x);
      NoDuplicatesMultiplicity(b, x);
    }
  }

  /** Distinct ids make distinct nodes. */
  lemma {:induction false} DistinctIdsDistinctNodes(nodes: seq<AgentNode>)
    requires NoDuplicates(Ids(nodes))
    ensures NoDuplicates(nodes)
  {
    forall i, j | 0 <= i < j < |nodes| ensures nodes[i] != nodes[j] {
      assert Ids(nodes)[i] != Ids(nodes)[j];
    }
  }
}
