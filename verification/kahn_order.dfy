/**
  The execution order of the hybrid engine: with no edges, nodes are grouped
  by type (input, ai, output, the rest); otherwise Kahn's algorithm runs on
  an in-degree map, and the nodes it never reaches are appended at the end
  in list order.
 */
module KahnOrder {
  import opened StringUtil
  import opened Workflow
  import opened Options

  // ---------------------------------------------------------------------------
  // Ordering without edges
  // ---------------------------------------------------------------------------

  /** The nodes whose type is none of `input`, `ai`, `output`, in order. */
  predicate CoreType(t: string) {
    t == "input" || t == "ai" || t == "output"
  }

  function OtherTypes(nodes: seq<AgentNode>): (r: seq<AgentNode>)
    ensures forall i :: 0 <= i < |r| ==> r[i] in nodes && !CoreType(r[i].nodeType)
  {
    if |nodes| == 0 then []
    else (if !CoreType(nodes[0].nodeType) then [nodes[0]] else []) + OtherTypes(nodes[1..])
  }

  /** Input nodes first, then ai, then output, then the rest, each group in list order. */
  function GroupedOrder(nodes: seq<AgentNode>): seq<AgentNode> {
    OfType(nodes, "input") + OfType(nodes, "ai") + OfType(nodes, "output") + OtherTypes(nodes)
  }

  /** The grouping loses and duplicates nothing: it is a permutation of the list. */
  lemma GroupedOrderPermutation(nodes: seq<AgentNode>)
    ensures multiset(GroupedOrder(nodes)) == multiset(nodes)
  {
    GroupsPartition(nodes);
    var ins, ais, outs, rest := OfType(nodes, "input"), OfType(nodes, "ai"), OfType(nodes, "output"), OtherTypes(nodes);
    assert GroupedOrder(nodes) == ins + ais + outs + rest;
  }

  /** Each node falls into exactly one of the four groups. */
  lemma {:induction false} GroupsPartition(nodes: seq<AgentNode>)
    ensures multiset(OfType(nodes, "input")) + multiset(OfType(nodes, "ai")) + multiset(OfType(nodes, "output"))
            + multiset(OtherTypes(nodes)) == multiset(nodes)
  {
    if |nodes| > 0 {
      var n, rest := nodes[0], nodes[1..];
      GroupsPartition(rest);
      OfTypeHead(nodes, "input");
      OfTypeHead(nodes, "ai");
      OfTypeHead(nodes, "output");
      OtherTypesHead(nodes);
      assert nodes == [n] + rest;
      JoinOne(multiset{n},
              multiset(OfType(rest, "input")), multiset(OfType(rest, "ai")),
              multiset(OfType(rest, "output")), multiset(OtherTypes(rest)),
              multiset(OfType(nodes, "input")), multiset(OfType(nodes, "ai")),
              multiset(OfType(nodes, "output")), multiset(OtherTypes(nodes)),
              multiset(rest), multiset(nodes));
    }
  }

  /** Adding one item to exactly one of four parts adds it to their sum. */
  lemma JoinOne<T>(x: multiset<T>, a: multiset<T>, b: multiset<T>, c: multiset<T>, d: multiset<T>,
                   a': multiset<T>, b': multiset<T>, c': multiset<T>, d': multiset<T>,
                   rest: multiset<T>, whole: multiset<T>)
    requires rest == a + b + c + d && whole == x + rest
    requires (a' == x + a && b' == b && c' == c && d' == d) || (a' == a && b' == x + b && c' == c && d' == d)
          || (a' == a && b' == b && c' == x + c && d' == d) || (a' == a && b' == b && c' == c && d' == x + d)
    ensures a' + b' + c' + d' == whole
  {
  }

  /** The first node joins the `t` group exactly when it has type `t`. */
  lemma OfTypeHead(nodes: seq<AgentNode>, t: string)
    requires |nodes| > 0
    ensures multiset(OfType(nodes, t)) ==
      (if nodes[0].nodeType == t then multiset{nodes[0]} else multiset{}) + multiset(OfType(nodes[1..], t))
  {
  }

  /** The first node joins the remaining group exactly when its type is none of the core ones. */
  lemma OtherTypesHead(nodes: seq<AgentNode>)
    requires |nodes| > 0
    ensures multiset(OtherTypes(nodes)) ==
      (if !CoreType(nodes[0].nodeType) then multiset{nodes[0]} else multiset{}) + multiset(OtherTypes(nodes[1..]))
  {
  }

  /** Every node of the type-grouped order stands after all nodes of earlier groups. */
  lemma {:induction false} GroupedOrderGroups(nodes: seq<AgentNode>, i: int, j: int)
    requires 0 <= i < j < |GroupedOrder(nodes)|
    ensures GroupRank(GroupedOrder(nodes)[i]) <= GroupRank(GroupedOrder(nodes)[j])
  {
    GroupedRankAt(nodes, i);
    GroupedRankAt(nodes, j);
  }

  /** The group a position of the no-edge order falls in, by the sizes of the groups before it. */
  lemma {:induction false} GroupedRankAt(nodes: seq<AgentNode>, k: int)
    requires 0 <= k < |GroupedOrder(nodes)|
    ensures var a, b, c := |OfType(nodes, "input")|, |OfType(nodes, "ai")|, |OfType(nodes, "output")|;
      GroupRank(GroupedOrder(nodes)[k]) == if k < a then 0 else if k < a + b then 1 else if k < a + b + c then 2 else 3
  {
    var ins, ais, outs, rest := OfType(nodes, "input"), OfType(nodes, "ai"), OfType(nodes, "output"), OtherTypes(nodes);
    var a, b, c := |ins|, |ais|, |outs|;
    var g := GroupedOrder(nodes);
    assert g == ins + ais + outs + rest;
    if k < a {
      assert g[k] == ins[k];
    } else if k < a + b {
      assert g[k] == ais[k - a];
    } else if k < a + b + c {
      assert g[k] == outs[k - a - b];
    } else {
      assert g[k] == rest[k - a - b - c];
    }
  }

  /** Position of a node's group in the no-edge order. */
  function GroupRank(n: AgentNode): nat {
    if n.nodeType == "input" then 0
    else if n.nodeType == "ai" then 1
    else if n.nodeType == "output" then 2
    else 3
  }

  // ---------------------------------------------------------------------------
  // In-degrees
  // ---------------------------------------------------------------------------

  /** Edges into `t` whose source has not been placed: the in-degree the engine keeps for `t`. */
  function Pending(edges: seq<Edge>, t: string, placed: set<string>): nat {
    if |edges| == 0 then 0
    else (if edges[0].target == t && edges[0].source !in placed then 1 else 0) + Pending(edges[1..], t, placed)
  }

  /** Number of edges from `s` to `t`. */
  function CountFromTo(edges: seq<Edge>, s: string, t: string): nat {
    if |edges| == 0 then 0
    else (if edges[0].source == s && edges[0].target == t then 1 else 0) + CountFromTo(edges[1..], s, t)
  }

  /** Placing `id` removes exactly the edges from `id` from every pending count. */
  lemma {:induction false} PendingPlace(edges: seq<Edge>, t: string, placed: set<string>, id: string)
    requires id !in placed
    ensures Pending(edges, t, placed) == Pending(edges, t, placed + {id}) + CountFromTo(edges, id, t)
  {
    if |edges| > 0 {
      PendingPlace(edges[1..], t, placed, id);
    }
  }

  /** A zero count means every edge into `t` comes from a placed node. */
  lemma {:induction false} PendingZero(edges: seq<Edge>, t: string, placed: set<string>)
    ensures Pending(edges, t, placed) == 0 <==>
              forall i :: 0 <= i < |edges| && edges[i].target == t ==> edges[i].source in placed
  {
    if |edges| > 0 {
      PendingZero(edges[1..], t, placed);
      assert forall i :: 1 <= i < |edges| ==> edges[i] == edges[1..][i - 1];
    }
  }

  function Get(m: map<string, int>, k: string): int {
    if k in m then m[k] else 0
  }

  /** `edges.forEach(e => inDegree.set(e.target, (inDegree.get(e.target) || 0) + 1))`. */
  function CountInto(edges: seq<Edge>, deg: map<string, int>): (r: map<string, int>)
    ensures r.Keys == deg.Keys + ToSet(Targets(edges))
    ensures forall t :: t in r ==> Get(r, t) == Get(deg, t) + Pending(edges, t, {})
  {
    if |edges| == 0 then deg
    else
      var t := edges[0].target;
      var r := CountInto(edges[1..], deg[t := Get(deg, t) + 1]);
      TargetsCons(edges);
      r
  }

  /** The targets of a non-empty edge list are its first target and those of the rest. */
  lemma TargetsCons(edges: seq<Edge>)
    requires |edges| > 0
    ensures ToSet(Targets(edges)) == {edges[0].target} + ToSet(Targets(edges[1..]))
  {
    assert Targets(edges) == [edges[0].target] + Targets(edges[1..]);
  }

  /** Every listed id starts at 0, then each edge adds one to its target. */
  function InitialDegrees(nodes: seq<AgentNode>, edges: seq<Edge>): (deg: map<string, int>)
    ensures deg.Keys == ToSet(Ids(nodes)) + ToSet(Targets(edges))
    ensures forall t :: t in deg ==> deg[t] == Pending(edges, t, {})
  {
    CountInto(edges, map id | id in Ids(nodes) :: 0)
  }

  /**
    The keys of the in-degree map in insertion order, which is the order a
    JavaScript `Map` iterates in: listed ids first, then ids met only as edge
    targets.
   */
  function KeyOrder(nodes: seq<AgentNode>, edges: seq<Edge>): (keys: seq<string>)
    ensures ToSet(keys) == ToSet(Ids(nodes)) + ToSet(Targets(edges))
    ensures NoDuplicates(keys)
  {
    var keys := Dedup(Ids(nodes) + Targets(edges));
    assert forall x :: x in Ids(nodes) + Targets(edges) <==> x in Ids(nodes) || x in Targets(edges);
    keys
  }

  /** The keys whose degree is 0, in key order: the initial queue. */
  function ZeroDegree(keys: seq<string>, deg: map<string, int>): (q: seq<string>)
    requires forall i :: 0 <= i < |keys| ==> keys[i] in deg
    ensures forall i :: 0 <= i < |q| ==> q[i] in deg && deg[q[i]] == 0
    ensures forall i :: 0 <= i < |keys| && deg[keys[i]] == 0 ==> keys[i] in q
  {
    if |keys| == 0 then []
    else (if deg[keys[0]] == 0 then [keys[0]] else []) + ZeroDegree(keys[1..], deg)
  }

  /**
    The relaxation after placing `id`: each edge leaving `id`, in edge order,
    lowers its target's degree by one, and a target that reaches 0 is pushed
    onto the queue. Returns the new degrees and the ids pushed, in order.
   */
  function Relax(es: seq<Edge>, id: string, deg: map<string, int>): (r: (map<string, int>, seq<string>))
    requires forall i :: 0 <= i < |es| ==> es[i].target in deg
    ensures r.0.Keys == deg.Keys
  {
    if |es| == 0 then (deg, [])
    else if es[0].source == id then
      var t := es[0].target;
      var d := deg[t := deg[t] - 1];
      var r := Relax(es[1..], id, d);
      (r.0, (if d[t] == 0 then [t] else []) + r.1)
    else
      Relax(es[1..], id, deg)
  }

  /** Relaxation lowers each degree by the number of edges from `id` to it. */
  lemma {:induction false} RelaxDegrees(es: seq<Edge>, id: string, deg: map<string, int>, t: string)
    requires forall i :: 0 <= i < |es| ==> es[i].target in deg
    requires t in deg
    ensures Relax(es, id, deg).0[t] == deg[t] - CountFromTo(es, id, t)
  {
    if |es| > 0 {
      if es[0].source == id {
        RelaxDegrees(es[1..], id, deg[es[0].target := deg[es[0].target] - 1], t);
      } else {
        RelaxDegrees(es[1..], id, deg, t);
      }
    }
  }

  /** A degree that relaxation brings from positive to 0 is pushed. */
  lemma {:induction false} RelaxPushesZeros(es: seq<Edge>, id: string, deg: map<string, int>, t: string)
    requires forall i :: 0 <= i < |es| ==> es[i].target in deg
    requires t in deg && deg[t] > 0 && Relax(es, id, deg).0[t] == 0
    ensures t in Relax(es, id, deg).1
  {
    RelaxDegrees(es, id, deg, t);
    if |es| > 0 {
      if es[0].source == id {
        var u := es[0].target;
        var d := deg[u := deg[u] - 1];
        RelaxDegrees(es[1..], id, d, t);
        if !(u == t && d[t] == 0) {
          RelaxPushesZeros(es[1..], id, d, t);
        }
      } else {
        RelaxPushesZeros(es[1..], id, deg, t);
      }
    }
  }

  /** When no degree would go negative, every pushed id ends at degree 0. */
  lemma {:induction false} RelaxPushedAreZero(es: seq<Edge>, id: string, deg: map<string, int>, k: int)
    requires forall i :: 0 <= i < |es| ==> es[i].target in deg
    requires forall t :: t in deg ==> deg[t] >= CountFromTo(es, id, t)
    requires 0 <= k < |Relax(es, id, deg).1|
    ensures Relax(es, id, deg).1[k] in deg && Relax(es, id, deg).0[Relax(es, id, deg).1[k]] == 0
  {
    if es[0].source == id {
      var u := es[0].target;
      var d := deg[u := deg[u] - 1];
      var r := Relax(es[1..], id, d);
      if d[u] == 0 && k == 0 {
        RelaxDegrees(es[1..], id, d, u);
      } else {
        RelaxPushedAreZero(es[1..], id, d, if d[u] == 0 then k - 1 else k);
      }
    } else {
      RelaxPushedAreZero(es[1..], id, deg, k);
    }
  }

  // ---------------------------------------------------------------------------
  // The queue loop
  // ---------------------------------------------------------------------------

  /**
    Every node in `order` comes after the sources of all edges into it: the
    first appearance of each source precedes it.
   */
  predicate RespectsEdges(order: seq<AgentNode>, edges: seq<Edge>) {
    forall k, j :: 0 <= k < |order| && 0 <= j < |edges| && edges[j].target == order[k].id
      ==> edges[j].source in Ids(order[..k])
  }

  /** Every listed node left out of `placed` has an edge into it from an id also left out. */
  predicate Stuck(nodes: seq<AgentNode>, edges: seq<Edge>, placed: set<string>) {
    forall i :: 0 <= i < |nodes| && nodes[i].id !in placed ==>
      exists j :: 0 <= j < |edges| && edges[j].target == nodes[i].id && edges[j].source !in placed
  }

  function DegreeKeys(nodes: seq<AgentNode>, edges: seq<Edge>): set<string> {
    ToSet(Ids(nodes)) + ToSet(Targets(edges))
  }

  /** The degree map holds, for every key, the edges into it from unplaced ids. */
  predicate DegreesInv(nodes: seq<AgentNode>, edges: seq<Edge>, deg: map<string, int>, visited: set<string>) {
    && deg.Keys == DegreeKeys(nodes, edges)
    && forall t :: t in deg ==> deg[t] == Pending(edges, t, visited)
  }

  /** The placed nodes are listed nodes, first of their id, with distinct ids, respecting edges. */
  predicate PlacedInv(nodes: seq<AgentNode>, edges: seq<Edge>, placed: seq<AgentNode>, visited: set<string>) {
    && visited == ToSet(Ids(placed))
    && NoDuplicates(Ids(placed))
    && (forall k :: 0 <= k < |placed| ==> FindNode(nodes, placed[k].id) == Some(placed[k]))
    && RespectsEdges(placed, edges)
  }

  /** Queued ids have degree 0, and every unplaced listed id of degree 0 is queued. */
  predicate QueueInv(nodes: seq<AgentNode>, deg: map<string, int>, queue: seq<string>, visited: set<string>) {
    && (forall k :: 0 <= k < |queue| ==> queue[k] in deg && deg[queue[k]] == 0)
    && forall i :: 0 <= i < |nodes| && nodes[i].id !in visited && nodes[i].id in deg && deg[nodes[i].id] == 0
         ==> nodes[i].id in queue
  }

  lemma {:induction false} EdgeTargetsAreKeys(nodes: seq<AgentNode>, edges: seq<Edge>, deg: map<string, int>)
    requires deg.Keys == DegreeKeys(nodes, edges)
    ensures forall i :: 0 <= i < |edges| ==> edges[i].target in deg
  {
    forall i | 0 <= i < |edges| ensures edges[i].target in deg {
      assert Targets(edges)[i] == edges[i].target;
    }
  }

  /** Placing a queued node keeps the placed list well formed and edge-respecting. */
  lemma {:induction false} PlaceStep(nodes: seq<AgentNode>, edges: seq<Edge>, placed: seq<AgentNode>, visited: set<string>, n: AgentNode)
    requires PlacedInv(nodes, edges, placed, visited)
    requires FindNode(nodes, n.id) == Some(n) && n.id !in visited
    requires Pending(edges, n.id, visited) == 0
    ensures PlacedInv(nodes, edges, placed + [n], visited + {n.id})
  {
    var p := placed + [n];
    PendingZero(edges, n.id, visited);
    RespectsAppend(placed, edges, n);
    IdsExtend(placed, n, visited);
    assert forall k :: 0 <= k < |p| ==> FindNode(nodes, p[k].id) == Some(p[k]) by {
      assert forall k :: 0 <= k < |placed| ==> p[k] == placed[k];
    }
  }

  /** Appending a node with a new id keeps the ids distinct and adds the id to their set. */
  lemma {:induction false} IdsExtend(placed: seq<AgentNode>, n: AgentNode, visited: set<string>)
    requires visited == ToSet(Ids(placed)) && NoDuplicates(Ids(placed)) && n.id !in visited
    ensures ToSet(Ids(placed + [n])) == visited + {n.id}
    ensures NoDuplicates(Ids(placed + [n]))
  {
    IdsAppend(placed, [n]);
    assert Ids(placed + [n]) == Ids(placed) + [n.id];
    assert n.id !in Ids(placed);
  }

  /** A node whose every incoming edge starts at an id already in the order can follow it. */
  lemma {:induction false} RespectsAppend(placed: seq<AgentNode>, edges: seq<Edge>, n: AgentNode)
    requires RespectsEdges(placed, edges)
    requires forall i :: 0 <= i < |edges| && edges[i].target == n.id ==> edges[i].source in ToSet(Ids(placed))
    ensures RespectsEdges(placed + [n], edges)
  {
    var p := placed + [n];
    forall k, j | 0 <= k < |p| && 0 <= j < |edges| && edges[j].target == p[k].id
      ensures edges[j].source in Ids(p[..k])
    {
      if k < |placed| {
        assert p[..k] == placed[..k];
      } else {
        assert p[..k] == placed;
      }
    }
  }

  /** After relaxing the placed id's edges, degrees count unplaced sources again. */
  lemma {:induction false} DegreeStep(nodes: seq<AgentNode>, edges: seq<Edge>, deg: map<string, int>, visited: set<string>, id: string)
    requires DegreesInv(nodes, edges, deg, visited) && id !in visited
    ensures forall i :: 0 <= i < |edges| ==> edges[i].target in deg
    ensures forall t :: t in deg ==> deg[t] >= CountFromTo(edges, id, t)
    ensures DegreesInv(nodes, edges, Relax(edges, id, deg).0, visited + {id})
  {
    EdgeTargetsAreKeys(nodes, edges, deg);
    forall t | t in deg
      ensures deg[t] >= CountFromTo(edges, id, t)
      ensures Relax(edges, id, deg).0[t] == Pending(edges, t, visited + {id})
    {
      PendingPlace(edges, t, visited, id);
      RelaxDegrees(edges, id, deg, t);
    }
  }

  /** After placing `id`, every queued id still has degree 0. */
  lemma {:induction false} QueueZeroStep(edges: seq<Edge>, deg: map<string, int>, queue: seq<string>, id: string)
    requires forall i :: 0 <= i < |edges| ==> edges[i].target in deg
    requires forall t :: t in deg ==> deg[t] >= CountFromTo(edges, id, t)
    requires |queue| > 0 && forall k :: 0 <= k < |queue| ==> queue[k] in deg && deg[queue[k]] == 0
    ensures var r := Relax(edges, id, deg);
            forall k :: 0 <= k < |queue[1..] + r.1| ==> (queue[1..] + r.1)[k] in r.0 && r.0[(queue[1..] + r.1)[k]] == 0
  {
    var r := Relax(edges, id, deg);
    var q := queue[1..] + r.1;
    forall k | 0 <= k < |q| ensures q[k] in r.0 && r.0[q[k]] == 0 {
      if k < |queue| - 1 {
        assert q[k] == queue[k + 1];
        RelaxDegrees(edges, id, deg, q[k]);
      } else {
        assert q[k] == r.1[k - (|queue| - 1)];
        RelaxPushedAreZero(edges, id, deg, k - (|queue| - 1));
      }
    }
  }

  /** After placing `id`, every unplaced listed id of degree 0 is still queued. */
  lemma {:induction false} QueueCoverStep(nodes: seq<AgentNode>, edges: seq<Edge>, deg: map<string, int>, queue: seq<string>,
                       visited: set<string>, id: string)
    requires forall i :: 0 <= i < |edges| ==> edges[i].target in deg
    requires |queue| > 0 && queue[0] == id
    requires forall i :: 0 <= i < |nodes| && nodes[i].id !in visited && nodes[i].id in deg && deg[nodes[i].id] == 0
               ==> nodes[i].id in queue
    ensures var r := Relax(edges, id, deg);
            forall i :: 0 <= i < |nodes| && nodes[i].id !in visited + {id} && nodes[i].id in r.0 && r.0[nodes[i].id] == 0
              ==> nodes[i].id in queue[1..] + r.1
  {
    var r := Relax(edges, id, deg);
    var q := queue[1..] + r.1;
    forall i | 0 <= i < |nodes| && nodes[i].id !in visited + {id} && nodes[i].id in r.0 && r.0[nodes[i].id] == 0
      ensures nodes[i].id in q
    {
      var t := nodes[i].id;
      RelaxDegrees(edges, id, deg, t);
      if deg[t] == 0 {
        var k :| 0 <= k < |queue| && queue[k] == t;
        assert k != 0;
        assert q[k - 1] == t;
      } else {
        RelaxPushesZeros(edges, id, deg, t);
        var k :| 0 <= k < |r.1| && r.1[k] == t;
        assert q[|queue| - 1 + k] == t;
      }
    }
  }

  /** Dropping a popped id that is not placed keeps the queue invariant. */
  lemma {:induction false} SkipStep(nodes: seq<AgentNode>, deg: map<string, int>, queue: seq<string>, visited: set<string>)
    requires |queue| > 0 && QueueInv(nodes, deg, queue, visited)
    requires FindNode(nodes, queue[0]).None? || queue[0] in visited
    ensures QueueInv(nodes, deg, queue[1..], visited)
  {
    forall i | 0 <= i < |nodes| && nodes[i].id !in visited && nodes[i].id in deg && deg[nodes[i].id] == 0
      ensures nodes[i].id in queue[1..]
    {
      assert Ids(nodes)[i] == nodes[i].id;
      var k :| 0 <= k < |queue| && queue[k] == nodes[i].id;
      assert k != 0;
      assert queue[1..][k - 1] == nodes[i].id;
    }
  }

  /** When the queue runs dry, every unplaced listed node still waits on an unplaced source. */
  lemma {:induction false} EmptyQueueStuck(nodes: seq<AgentNode>, edges: seq<Edge>, deg: map<string, int>, visited: set<string>)
    requires DegreesInv(nodes, edges, deg, visited) && QueueInv(nodes, deg, [], visited)
    ensures Stuck(nodes, edges, visited)
  {
    forall i | 0 <= i < |nodes| && nodes[i].id !in visited
      ensures exists j :: 0 <= j < |edges| && edges[j].target == nodes[i].id && edges[j].source !in visited
    {
      assert Ids(nodes)[i] == nodes[i].id;
      PendingZero(edges, nodes[i].id, visited);
    }
  }

  /** One placing iteration of the loop preserves all three invariants. */
  lemma {:induction false} PlaceIteration(nodes: seq<AgentNode>, edges: seq<Edge>, deg: map<string, int>, queue: seq<string>,
                       visited: set<string>, placed: seq<AgentNode>, n: AgentNode)
    requires DegreesInv(nodes, edges, deg, visited)
    requires PlacedInv(nodes, edges, placed, visited)
    requires QueueInv(nodes, deg, queue, visited)
    requires |queue| > 0 && queue[0] == n.id && FindNode(nodes, n.id) == Some(n) && n.id !in visited
    ensures forall i :: 0 <= i < |edges| ==> edges[i].target in deg
    ensures var r := Relax(edges, n.id, deg);
            && DegreesInv(nodes, edges, r.0, visited + {n.id})
            && PlacedInv(nodes, edges, placed + [n], visited + {n.id})
            && QueueInv(nodes, r.0, queue[1..] + r.1, visited + {n.id})
  {
    PlaceStep(nodes, edges, placed, visited, n);
    DegreeStep(nodes, edges, deg, visited, n.id);
    QueueZeroStep(edges, deg, queue, n.id);
    QueueCoverStep(nodes, edges, deg, queue, visited, n.id);
  }

  /** The invariants hold before the first iteration. */
  lemma {:induction false} InitialInvariants(nodes: seq<AgentNode>, edges: seq<Edge>)
    ensures var deg := InitialDegrees(nodes, edges);
            && DegreesInv(nodes, edges, deg, {})
            && PlacedInv(nodes, edges, [], {})
            && QueueInv(nodes, deg, ZeroDegree(KeyOrder(nodes, edges), deg), {})
  {
    var deg := InitialDegrees(nodes, edges);
    var keys := KeyOrder(nodes, edges);
    var queue := ZeroDegree(keys, deg);
    forall i | 0 <= i < |nodes| && nodes[i].id in deg && deg[nodes[i].id] == 0 ensures nodes[i].id in queue {
      assert Ids(nodes)[i] == nodes[i].id;
      var k :| 0 <= k < |keys| && keys[k] == nodes[i].id;
    }
  }

  /**
    The `while (queue.length > 0)` loop. A popped id is placed when it names
    a listed node (the first with that id) not placed yet; the loop stops when
    the queue is empty.
   */
  method PlaceByDegree(nodes: seq<AgentNode>, edges: seq<Edge>) returns (placed: seq<AgentNode>)
    ensures NoDuplicates(Ids(placed))
    ensures forall k :: 0 <= k < |placed| ==> FindNode(nodes, placed[k].id) == Some(placed[k])
    ensures RespectsEdges(placed, edges)
    ensures Stuck(nodes, edges, ToSet(Ids(placed)))
  {
    var deg := InitialDegrees(nodes, edges);
    var queue := ZeroDegree(KeyOrder(nodes, edges), deg);
    var visited: set<string> := {};
    placed := [];
    InitialInvariants(nodes, edges);
    while |queue| > 0
      invariant DegreesInv(nodes, edges, deg, visited)
      invariant PlacedInv(nodes, edges, placed, visited)
      invariant QueueInv(nodes, deg, queue, visited)
      decreases ToSet(Ids(nodes)) - visited, |queue|
    {
      var id := queue[0];
      var node := FindNode(nodes, id);
      if node.Some? && id !in visited {
        PlaceIteration(nodes, edges, deg, queue, visited, placed, node.value);
        var relaxed := Relax(edges, id, deg);
        visited := visited + {id};
        placed := placed + [node.value];
        deg := relaxed.0;
        queue := queue[1..] + relaxed.1;
      } else {
        SkipStep(nodes, deg, queue, visited);
        queue := queue[1..];
      }
    }
    EmptyQueueStuck(nodes, edges, deg, visited);
  }

  // ---------------------------------------------------------------------------
  // The whole ordering
  // ---------------------------------------------------------------------------

  /** The listed nodes whose id is in `placed`, in list order. */
  function PlacedPart(nodes: seq<AgentNode>, placed: set<string>): (r: seq<AgentNode>)
    ensures forall i :: 0 <= i < |r| ==> r[i] in nodes
  {
    if |nodes| == 0 then []
    else (if nodes[0].id in placed then [nodes[0]] else []) + PlacedPart(nodes[1..], placed)
  }

  /** `nodes.forEach(n => { if (!visited.has(n.id)) result.push(n) })`. */
  function Unplaced(nodes: seq<AgentNode>, placed: set<string>): (r: seq<AgentNode>)
    ensures forall i :: 0 <= i < |r| ==> r[i] in nodes && r[i].id !in placed
    ensures (forall i :: 0 <= i < |nodes| ==> nodes[i].id in placed) ==> r == []
  {
    if |nodes| == 0 then []
    else (if nodes[0].id !in placed then [nodes[0]] else []) + Unplaced(nodes[1..], placed)
  }

  /** Every node whose id was not placed is appended. */
  lemma {:induction false} UnplacedComplete(nodes: seq<AgentNode>, placed: set<string>, i: int)
    requires 0 <= i < |nodes| && nodes[i].id !in placed
    ensures nodes[i] in Unplaced(nodes, placed)
  {
    if i > 0 {
      UnplacedComplete(nodes[1..], placed, i - 1);
    }
  }

  /** Only nodes whose id was placed are in the placed part. */
  lemma {:induction false} PlacedPartSound(nodes: seq<AgentNode>, placed: set<string>, n: AgentNode)
    requires n in PlacedPart(nodes, placed)
    ensures n.id in placed
  {
    if n != nodes[0] || nodes[0].id !in placed {
      PlacedPartSound(nodes[1..], placed, n);
    }
  }

  /** Every node whose id was placed is in the placed part. */
  lemma {:induction false} PlacedPartComplete(nodes: seq<AgentNode>, placed: set<string>, i: int)
    requires 0 <= i < |nodes| && nodes[i].id in placed
    ensures nodes[i] in PlacedPart(nodes, placed)
  {
    if i > 0 {
      PlacedPartComplete(nodes[1..], placed, i - 1);
    }
  }

  lemma {:induction false} PartitionPermutation(nodes: seq<AgentNode>, placed: set<string>)
    ensures multiset(PlacedPart(nodes, placed)) + multiset(Unplaced(nodes, placed)) == multiset(nodes)
  {
    if |nodes| > 0 {
      var n, rest := nodes[0], nodes[1..];
      PartitionPermutation(rest, placed);
      HeadTailMultiset(nodes);
      PartitionCons(n, rest, PlacedPart(rest, placed), Unplaced(rest, placed),
                    PlacedPart(nodes, placed), Unplaced(nodes, placed));
    }
  }

  /** Putting one more element on either side of a split keeps the multiset. */
  lemma {:induction false} PartitionCons<T>(n: T, rest: seq<T>, p0: seq<T>, u0: seq<T>, p: seq<T>, u: seq<T>)
    requires multiset(p0) + multiset(u0) == multiset(rest)
    requires (p == [n] + p0 && u == u0) || (p == p0 && u == [n] + u0)
    ensures multiset(p) + multiset(u) == multiset([n]) + multiset(rest)
  {
  }

  lemma {:induction false} HeadTailMultiset<T>(s: seq<T>)
    requires |s| > 0
    ensures multiset(s) == multiset([s[0]]) + multiset(s[1..])
  {
    assert s == [s[0]] + s[1..];
  }

  lemma {:induction false} PlacedPartNoDuplicates(nodes: seq<AgentNode>, placed: set<string>)
    requires NoDuplicates(nodes)
    ensures NoDuplicates(PlacedPart(nodes, placed))
  {
    if |nodes| > 0 {
      assert NoDuplicates(nodes[1..]) by {
        forall i, j | 0 <= i < j < |nodes[1..]| ensures nodes[1..][i] != nodes[1..][j] {
          assert nodes[1..][i] == nodes[i + 1] && nodes[1..][j] == nodes[j + 1];
        }
      }
      PlacedPartNoDuplicates(nodes[1..], placed);
      assert nodes[0] !in nodes[1..] by {
        forall i | 0 <= i < |nodes[1..]| ensures nodes[1..][i] != nodes[0] {
          assert nodes[1..][i] == nodes[i + 1];
        }
      }
    }
  }

  /** With distinct ids, a listed node whose id was placed is the placed node itself. */
  lemma {:induction false} PlacedNodeIsListedNode(nodes: seq<AgentNode>, placed: seq<AgentNode>, n: AgentNode)
    requires NoDuplicates(Ids(nodes))
    requires forall k :: 0 <= k < |placed| ==> FindNode(nodes, placed[k].id) == Some(placed[k])
    requires n in nodes && n.id in Ids(placed)
    ensures n in placed
  {
    var k :| 0 <= k < |placed| && Ids(placed)[k] == n.id;
    FindNodeUnique(nodes, n);
    assert FindNode(nodes, placed[k].id) == Some(placed[k]);
  }

  lemma {:induction false} PlacedInPlacedPart(nodes: seq<AgentNode>, placed: seq<AgentNode>, i: int)
    requires 0 <= i < |placed| && FindNode(nodes, placed[i].id) == Some(placed[i])
    ensures placed[i] in PlacedPart(nodes, ToSet(Ids(placed)))
  {
    var j :| 0 <= j < |nodes| && nodes[j] == placed[i];
    assert Ids(placed)[i] == nodes[j].id;
    PlacedPartComplete(nodes, ToSet(Ids(placed)), j);
  }

  /** With distinct ids, the placed nodes are the listed nodes with a placed id, reordered. */
  lemma {:induction false} PlacedIsPlacedPart(nodes: seq<AgentNode>, placed: seq<AgentNode>)
    requires NoDuplicates(Ids(nodes)) && NoDuplicates(Ids(placed))
    requires forall k :: 0 <= k < |placed| ==> FindNode(nodes, placed[k].id) == Some(placed[k])
    ensures multiset(placed) == multiset(PlacedPart(nodes, ToSet(Ids(placed))))
  {
    var p := PlacedPart(nodes, ToSet(Ids(placed)));
    PlacedPartFacts(nodes, placed);
    SameElementsPermutation(placed, p);
  }

  lemma {:induction false} PlacedPartFacts(nodes: seq<AgentNode>, placed: seq<AgentNode>)
    requires NoDuplicates(Ids(nodes)) && NoDuplicates(Ids(placed))
    requires forall k :: 0 <= k < |placed| ==> FindNode(nodes, placed[k].id) == Some(placed[k])
    ensures var p := PlacedPart(nodes, ToSet(Ids(placed)));
            NoDuplicates(placed) && NoDuplicates(p) && ToSet(placed) == ToSet(p)
  {
    DistinctIdsDistinctNodes(nodes);
    DistinctIdsDistinctNodes(placed);
    PlacedPartNoDuplicates(nodes, ToSet(Ids(placed)));
    PlacedWithinPlacedPart(nodes, placed);
    PlacedPartWithinPlaced(nodes, placed);
  }

  lemma {:induction false} PlacedWithinPlacedPart(nodes: seq<AgentNode>, placed: seq<AgentNode>)
    requires forall k :: 0 <= k < |placed| ==> FindNode(nodes, placed[k].id) == Some(placed[k])
    ensures ToSet(placed) <= ToSet(PlacedPart(nodes, ToSet(Ids(placed))))
  {
    var p := PlacedPart(nodes, ToSet(Ids(placed)));
    forall i | 0 <= i < |placed| ensures placed[i] in p {
      PlacedInPlacedPart(nodes, placed, i);
    }
    ElementsWithin(placed, p);
  }

  lemma {:induction false} PlacedPartWithinPlaced(nodes: seq<AgentNode>, placed: seq<AgentNode>)
    requires NoDuplicates(Ids(nodes))
    requires forall k :: 0 <= k < |placed| ==> FindNode(nodes, placed[k].id) == Some(placed[k])
    ensures ToSet(PlacedPart(nodes, ToSet(Ids(placed)))) <= ToSet(placed)
  {
    var p := PlacedPart(nodes, ToSet(Ids(placed)));
    forall i | 0 <= i < |p| ensures p[i] in placed {
      PlacedPartSound(nodes, ToSet(Ids(placed)), p[i]);
      PlacedNodeIsListedNode(nodes, placed, p[i]);
    }
    ElementsWithin(p, placed);
  }

  /** With distinct ids, every listed node is either placed or appended, exactly once. */
  lemma {:induction false} KahnPermutation(nodes: seq<AgentNode>, placed: seq<AgentNode>)
    requires NoDuplicates(Ids(nodes)) && NoDuplicates(Ids(placed))
    requires forall k :: 0 <= k < |placed| ==> FindNode(nodes, placed[k].id) == Some(placed[k])
    ensures multiset(placed + Unplaced(nodes, ToSet(Ids(placed)))) == multiset(nodes)
  {
    PlacedIsPlacedPart(nodes, placed);
    PartitionPermutation(nodes, ToSet(Ids(placed)));
  }

  /** Every listed id is either placed or among the appended nodes. */
  lemma {:induction false} AllListedAppear(nodes: seq<AgentNode>, placed: seq<AgentNode>)
    ensures var result := placed + Unplaced(nodes, ToSet(Ids(placed)));
            forall i :: 0 <= i < |nodes| ==> nodes[i].id in Ids(result)
  {
    var rest := Unplaced(nodes, ToSet(Ids(placed)));
    var result := placed + rest;
    IdsAppend(placed, rest);
    forall i | 0 <= i < |nodes| ensures nodes[i].id in Ids(result) {
      if nodes[i].id !in Ids(placed) {
        UnplacedComplete(nodes, ToSet(Ids(placed)), i);
        var k :| 0 <= k < |rest| && rest[k] == nodes[i];
        assert Ids(rest)[k] == nodes[i].id;
      }
    }
  }

  /** On a ranked graph whose edges join listed nodes, nothing is left to append. */
  lemma {:induction false} RankedPlacesAll(nodes: seq<AgentNode>, edges: seq<Edge>, placed: set<string>, rank: string -> nat)
    requires Ranked(edges, rank) && EndpointsListed(nodes, edges) && Stuck(nodes, edges, placed)
    ensures Unplaced(nodes, placed) == []
  {
    forall i | 0 <= i < |nodes| ensures nodes[i].id in placed {
      assert Ids(nodes)[i] == nodes[i].id;
      RankedNeverStuck(nodes, edges, placed, rank, nodes[i].id, rank(nodes[i].id));
    }
  }

  /** On a ranked graph whose edges join listed nodes, a stuck set already holds every listed id. */
  lemma {:induction false} RankedNeverStuck(nodes: seq<AgentNode>, edges: seq<Edge>, placed: set<string>,
                                            rank: string -> nat, t: string, bound: nat)
    requires Ranked(edges, rank) && EndpointsListed(nodes, edges)
    requires Stuck(nodes, edges, placed)
    requires t in Ids(nodes) && rank(t) <= bound
    ensures t in placed
    decreases bound
  {
    if t !in placed {
      var i :| 0 <= i < |nodes| && Ids(nodes)[i] == t;
      var j :| 0 <= j < |edges| && edges[j].target == nodes[i].id && edges[j].source !in placed;
      assert rank(edges[j].source) < rank(t);
      RankedNeverStuck(nodes, edges, placed, rank, edges[j].source, rank(t) - 1);
    }
  }

  /** A permutation of the list holds exactly the listed nodes, so every listed id. */
  lemma PermutationMembers(nodes: seq<AgentNode>, result: seq<AgentNode>)
    requires multiset(result) == multiset(nodes)
    ensures forall k :: 0 <= k < |result| ==> result[k] in nodes
    ensures forall i :: 0 <= i < |nodes| ==> nodes[i].id in Ids(result)
  {
    forall i | 0 <= i < |nodes| ensures nodes[i].id in Ids(result) {
      assert nodes[i] in multiset(result);
      var k :| 0 <= k < |result| && result[k] == nodes[i];
      assert Ids(result)[k] == nodes[i].id;
    }
    forall k | 0 <= k < |result| ensures result[k] in nodes {
      assert result[k] in multiset(nodes);
    }
  }

  /** The placed nodes followed by the unplaced ones are all listed nodes. */
  lemma KahnResultListed(nodes: seq<AgentNode>, placed: seq<AgentNode>)
    requires forall k :: 0 <= k < |placed| ==> FindNode(nodes, placed[k].id) == Some(placed[k])
    ensures var result := placed + Unplaced(nodes, ToSet(Ids(placed)));
            forall k :: 0 <= k < |result| ==> result[k] in nodes
  {
    var rest := Unplaced(nodes, ToSet(Ids(placed)));
    var result := placed + rest;
    forall k | 0 <= k < |result| ensures result[k] in nodes {
      if k < |placed| {
        assert FindNode(nodes, placed[k].id).Some?;
      } else {
        assert result[k] == rest[k - |placed|];
      }
    }
  }

  /**
    `getExecutionOrder` of the hybrid engine. Every listed node's id appears;
    only listed nodes appear; with distinct ids the result is a permutation of
    the list; nodes the queue never reached keep their list order at the end;
    and when the edges are acyclic and join listed nodes, every edge's source
    comes before its target.
   */
  method ExecutionOrder(nodes: seq<AgentNode>, edges: seq<Edge>, ghost rank: string -> nat)
    returns (result: seq<AgentNode>, settled: nat)
    ensures |edges| == 0 ==> result == GroupedOrder(nodes)
    ensures forall k :: 0 <= k < |result| ==> result[k] in nodes
    ensures forall i :: 0 <= i < |nodes| ==> nodes[i].id in Ids(result)
    ensures NoDuplicates(Ids(nodes)) ==> multiset(result) == multiset(nodes)
    ensures settled <= |result|
    ensures |edges| > 0 ==> RespectsEdges(result[..settled], edges)
    ensures |edges| > 0 ==> result[settled..] == Unplaced(nodes, ToSet(Ids(result[..settled])))
    ensures |edges| > 0 && Ranked(edges, rank) && EndpointsListed(nodes, edges)
            ==> settled == |result| && RespectsEdges(result, edges)
  {
    if |edges| == 0 {
      result := GroupedOrder(nodes);
      settled := |result|;
      GroupedOrderPermutation(nodes);
      PermutationMembers(nodes, result);
      return;
    }
    var placed := PlaceByDegree(nodes, edges);
    var rest := Unplaced(nodes, ToSet(Ids(placed)));
    result := placed + rest;
    settled := |placed|;
    assert result[..settled] == placed;
    assert result[settled..] == rest;
    KahnResultListed(nodes, placed);
    AllListedAppear(nodes, placed);
    if NoDuplicates(Ids(nodes)) {
      KahnPermutation(nodes, placed);
    }
    if Ranked(edges, rank) && EndpointsListed(nodes, edges) {
      RankedPlacesAll(nodes, edges, ToSet(Ids(placed)), rank);
      assert result == placed;
    }
  }
}
