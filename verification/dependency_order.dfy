/**
  The execution order of the earlier hybrid engine: every node is visited
  in list order, and visiting an id first visits, recursively, the sources
  of the edges that point to it, then records the id. On an acyclic edge
  set this is a dependency-first (post-order) topological order.
 */
module DependencyOrder {
  import opened StringUtil
  import opened Workflow

  /** `incomingEdges.get(id) || []`: the sources of the edges into `id`, in edge order. */
  function Dependencies(edges: seq<Edge>, id: string): (r: seq<string>)
    ensures forall i :: 0 <= i < |r| ==> Edge(r[i], id) in edges
  {
    if |edges| == 0 then []
    else (if edges[0].target == id then [edges[0].source] else []) + Dependencies(edges[1..], id)
  }

  /** No edge into `id` is missed. */
  lemma {:induction false} DependenciesComplete(edges: seq<Edge>, id: string, j: int)
    requires 0 <= j < |edges| && edges[j].target == id
    ensures edges[j].source in Dependencies(edges, id)
  {
    if j > 0 {
      DependenciesComplete(edges[1..], id, j - 1);
    }
  }

  lemma {:induction false} DependenciesRanked(edges: seq<Edge>, id: string, rank: string -> nat)
    requires Ranked(edges, rank)
    ensures forall i :: 0 <= i < |Dependencies(edges, id)| ==> rank(Dependencies(edges, id)[i]) < rank(id)
  {
    var r := Dependencies(edges, id);
    forall i | 0 <= i < |r| ensures rank(r[i]) < rank(id) {
      var j :| 0 <= j < |edges| && edges[j] == Edge(r[i], id);
    }
  }

  /**
    Every recorded id comes after the dependencies it has: each of them was
    visited before the call (`visited`) or recorded earlier.
   */
  predicate DependenciesFirst(edges: seq<Edge>, visited: set<string>, r: seq<string>) {
    forall k, j :: 0 <= k < |r| && 0 <= j < |edges| && edges[j].target == r[k]
      ==> edges[j].source in visited || edges[j].source in r[..k]
  }

  /**
    `visit(id)` with the ids already in `visited`: the ids it records, in
    order. The recursion terminates because the edges run forward along
    `rank`; in the source a cycle makes it recurse without end.
   */
  function Visit(edges: seq<Edge>, id: string, visited: set<string>, ghost rank: string -> nat): (r: seq<string>)
    requires Ranked(edges, rank)
    ensures NoDuplicates(r)
    ensures forall i :: 0 <= i < |r| ==> r[i] !in visited
    ensures id in visited + ToSet(r)
    ensures forall i :: 0 <= i < |r| ==> rank(r[i]) <= rank(id)
    ensures DependenciesFirst(edges, visited, r)
    decreases rank(id), 1, 0
  {
    if id in visited then []
    else
      var deps := Dependencies(edges, id);
      DependenciesRanked(edges, id, rank);
      var before := VisitAll(edges, deps, visited, rank(id), rank);
      RecordAfterDependencies(edges, id, visited, before);
      NoDuplicatesAppend(before, [id]);
      before + [id]
  }

  /** `dependencies.forEach(visit)` (and `nodes.forEach`), sharing `visited`. */
  function VisitAll(edges: seq<Edge>, ids: seq<string>, visited: set<string>, ghost bound: nat,
                    ghost rank: string -> nat): (r: seq<string>)
    requires Ranked(edges, rank)
    requires forall i :: 0 <= i < |ids| ==> rank(ids[i]) < bound
    ensures NoDuplicates(r)
    ensures forall i :: 0 <= i < |r| ==> r[i] !in visited
    ensures forall i :: 0 <= i < |ids| ==> ids[i] in visited + ToSet(r)
    ensures forall i :: 0 <= i < |r| ==> rank(r[i]) < bound
    ensures DependenciesFirst(edges, visited, r)
    decreases bound, 0, |ids|
  {
    if |ids| == 0 then []
    else
      var first := Visit(edges, ids[0], visited, rank);
      var rest := VisitAll(edges, ids[1..], visited + ToSet(first), bound, rank);
      NoDuplicatesAppend(first, rest);
      VisitAllCovers(ids, visited, first, rest);
      DependenciesFirstAppend(edges, visited, first, rest);
      first + rest
  }

  lemma {:induction false} VisitAllCovers(ids: seq<string>, visited: set<string>, first: seq<string>, rest: seq<string>)
    requires |ids| > 0 && ids[0] in visited + ToSet(first)
    requires forall i :: 0 <= i < |ids| - 1 ==> ids[1..][i] in visited + ToSet(first) + ToSet(rest)
    ensures forall i :: 0 <= i < |ids| ==> ids[i] in visited + ToSet(first + rest)
  {
    forall i | 0 <= i < |ids| ensures ids[i] in visited + ToSet(first + rest) {
      if i > 0 {
        assert ids[i] == ids[1..][i - 1];
      }
    }
  }

  /** Recording `id` after its dependencies keeps dependencies first. */
  lemma {:induction false} RecordAfterDependencies(edges: seq<Edge>, id: string, visited: set<string>, before: seq<string>)
    requires DependenciesFirst(edges, visited, before)
    requires forall i :: 0 <= i < |Dependencies(edges, id)| ==> Dependencies(edges, id)[i] in visited + ToSet(before)
    ensures DependenciesFirst(edges, visited, before + [id])
  {
    var r := before + [id];
    forall k, j | 0 <= k < |r| && 0 <= j < |edges| && edges[j].target == r[k]
      ensures edges[j].source in visited || edges[j].source in r[..k]
    {
      if k < |before| {
        assert r[k] == before[k] && r[..k] == before[..k];
      } else {
        DependenciesComplete(edges, id, j);
        var i :| 0 <= i < |Dependencies(edges, id)| && Dependencies(edges, id)[i] == edges[j].source;
        assert r[..k] == before;
      }
    }
  }

  /** Running a second visit after a first keeps dependencies first. */
  lemma {:induction false} DependenciesFirstAppend(edges: seq<Edge>, visited: set<string>, first: seq<string>, rest: seq<string>)
    requires DependenciesFirst(edges, visited, first)
    requires DependenciesFirst(edges, visited + ToSet(first), rest)
    ensures DependenciesFirst(edges, visited, first + rest)
  {
    var r := first + rest;
    forall k, j | 0 <= k < |r| && 0 <= j < |edges| && edges[j].target == r[k]
      ensures edges[j].source in visited || edges[j].source in r[..k]
    {
      if k < |first| {
        assert r[k] == first[k] && r[..k] == first[..k];
      } else {
        var k2 := k - |first|;
        assert r[k] == rest[k2];
        assert r[..k] == first + rest[..k2];
        if edges[j].source in ToSet(first) {
          var m :| 0 <= m < |first| && first[m] == edges[j].source;
          assert r[..k][m] == first[m];
        } else if edges[j].source in rest[..k2] {
          var m :| 0 <= m < k2 && rest[m] == edges[j].source;
          assert r[..k][|first| + m] == rest[m];
        }
      }
    }
  }

  /** The largest rank of a list of ids, plus one: a bound for `VisitAll`. */
  function RankBound(ids: seq<string>, rank: string -> nat): (b: nat)
    ensures forall i :: 0 <= i < |ids| ==> rank(ids[i]) < b
  {
    if |ids| == 0 then 0
    else
      var b := RankBound(ids[1..], rank);
      var r := if rank(ids[0]) + 1 > b then rank(ids[0]) + 1 else b;
      assert forall i :: 1 <= i < |ids| ==> ids[i] == ids[1..][i - 1];
      r
  }

  /**
    `getExecutionOrder` of the earlier hybrid engine: each id is recorded
    once, every listed node's id is recorded, and the source of every edge
    into a recorded id is recorded before it.
   */
  function DependencyExecutionOrder(nodes: seq<AgentNode>, edges: seq<Edge>, ghost rank: string -> nat): (r: seq<string>)
    requires Ranked(edges, rank)
    ensures NoDuplicates(r)
    ensures forall i :: 0 <= i < |nodes| ==> nodes[i].id in r
    ensures forall k, j :: 0 <= k < |r| && 0 <= j < |edges| && edges[j].target == r[k] ==> edges[j].source in r[..k]
  {
    var ids := Ids(nodes);
    var r := VisitAll(edges, ids, {}, RankBound(ids, rank), rank);
    assert forall i :: 0 <= i < |nodes| ==> ids[i] == nodes[i].id;
    r
  }
}
