/** The line topology the runtime derives from the peer list at `init`
    (`Node._make_topology`). The node at index i is connected to the nodes at
    i - 1 and i + 1, where they exist. The dictionary is a `defaultdict(list)`:
    a key appears once something has been appended under it. */
module Topology {
  import opened Messages

  /** What one visit of index i appends: the predecessor, then the successor. */
  function LineNeighbours(nodes: seq<string>, i: nat): seq<string>
    requires i < |nodes|
  {
    (if i > 0 then [nodes[i - 1]] else []) + (if i + 1 < |nodes| then [nodes[i + 1]] else [])
  }

  /** All that the visits of indices 0 .. k-1 append under the key `n`
      (several indices when `n` occurs more than once in the list). */
  function Gathered(nodes: seq<string>, n: string, k: nat): seq<string>
    requires k <= |nodes|
  {
    if k == 0 then []
    else Gathered(nodes, n, k - 1) + (if nodes[k - 1] == n then LineNeighbours(nodes, k - 1) else [])
  }

  /** The dictionary after visiting indices 0 .. k-1. Every visit appends at
      least one neighbour when there are two or more nodes, and none otherwise. */
  function Built(nodes: seq<string>, k: nat): map<string, seq<string>>
    requires k <= |nodes|
  {
    map n | n in nodes[..k] && |nodes| >= 2 :: Gathered(nodes, n, k)
  }

  /** The topology `_make_topology` returns for `nodes`. */
  function LineTopology(nodes: seq<string>): map<string, seq<string>>
  {
    Built(nodes, |nodes|)
  }

  /** `Node._make_topology`. */
  method MakeTopology(nodes: seq<string>) returns (t: map<string, seq<string>>)
    ensures t == LineTopology(nodes)
  {
    t := map[];
    for i := 0 to |nodes|
      invariant t == Built(nodes, i)
    {
      var node := nodes[i];
      ghost var before := t;
      var appended := GetOr(t, node, []);
      if i > 0 {
        appended := appended + [nodes[i - 1]];
        t := t[node := appended];
      }
      if i + 1 < |nodes| {
        appended := appended + [nodes[i + 1]];
        t := t[node := appended];
      }
      GatheredSoFar(nodes, node, i);
      assert appended == Gathered(nodes, node, i) + LineNeighbours(nodes, i);
      BuiltStep(nodes, i);
      assert t == if |nodes| >= 2 then before[node := appended] else before;
    }
    assert nodes[..|nodes|] == nodes;
  }

  /** Under a key not yet visited, or in a list too short to have edges, nothing has been appended. */
  lemma {:induction false} GatheredSoFar(nodes: seq<string>, n: string, k: nat)
    requires k <= |nodes|
    ensures GetOr(Built(nodes, k), n, []) == Gathered(nodes, n, k)
  {
    if k > 0 {
      GatheredSoFar(nodes, n, k - 1);
      assert nodes[..k] == nodes[..k - 1] + [nodes[k - 1]];
      if |nodes| < 2 {
        assert LineNeighbours(nodes, k - 1) == [];
      }
    }
  }

  /** Visiting index i sets the entry of `nodes[i]` to all that was appended
      under it so far, and touches no other key. */
  lemma BuiltStep(nodes: seq<string>, i: nat)
    requires i < |nodes|
    ensures Built(nodes, i + 1) ==
      if |nodes| >= 2 then Built(nodes, i)[nodes[i] := Gathered(nodes, nodes[i], i + 1)] else Built(nodes, i)
  {
    assert nodes[..i + 1] == nodes[..i] + [nodes[i]];
    var after, before := Built(nodes, i + 1), Built(nodes, i);
    if |nodes| < 2 {
      assert forall n :: n !in after;
      assert forall n :: n !in before;
    } else {
      var updated := before[nodes[i] := Gathered(nodes, nodes[i], i + 1)];
      forall n | n in after ensures n in updated && after[n] == updated[n] {
        if n != nodes[i] {
          assert Gathered(nodes, n, i + 1) == Gathered(nodes, n, i) + [];
        }
      }
      assert after == updated;
    }
  }

  /** For a list of distinct nodes, only the visit of the node's own index appends under its key. */
  lemma {:induction false} GatheredDistinct(nodes: seq<string>, i: nat, k: nat)
    requires NoDuplicates(nodes) && i < |nodes| && k <= |nodes|
    ensures Gathered(nodes, nodes[i], k) == if i < k then LineNeighbours(nodes, i) else []
  {
    if k > 0 {
      GatheredDistinct(nodes, i, k - 1);
      assert nodes[k - 1] == nodes[i] <==> k - 1 == i;
    }
  }

  /** The keys of the line topology: every node when there are two or more, none otherwise. */
  lemma LineTopologyKeys(nodes: seq<string>)
    ensures |nodes| >= 2 ==> forall n :: n in LineTopology(nodes) <==> n in nodes
    ensures |nodes| < 2 ==> LineTopology(nodes) == map[]
  {
    assert nodes[..|nodes|] == nodes;
  }

  /** For distinct nodes, the node at index i has exactly its predecessor, then
      its successor, as neighbours, each only where it exists. */
  lemma LineTopologyAt(nodes: seq<string>, i: nat)
    requires NoDuplicates(nodes) && i < |nodes|
    ensures GetOr(LineTopology(nodes), nodes[i], []) == LineNeighbours(nodes, i)
  {
    LineTopologyKeys(nodes);
    GatheredDistinct(nodes, i, |nodes|);
  }

  /** `a` and `b` stand next to each other in the list. */
  ghost predicate Adjacent(nodes: seq<string>, a: string, b: string)
  {
    exists i :: 0 <= i && i + 1 < |nodes| &&
      ((nodes[i] == a && nodes[i + 1] == b) || (nodes[i] == b && nodes[i + 1] == a))
  }

  /** Over distinct nodes, `b` is a neighbour of `a` exactly when the two
      stand next to each other in the list. */
  lemma LineTopologyAdjacent(nodes: seq<string>, a: string, b: string)
    requires NoDuplicates(nodes)
    ensures b in GetOr(LineTopology(nodes), a, []) <==> Adjacent(nodes, a, b)
  {
    LineTopologyKeys(nodes);
    if b in GetOr(LineTopology(nodes), a, []) {
      var i :| 0 <= i < |nodes| && nodes[i] == a;
      LineTopologyAt(nodes, i);
      if i > 0 && b == nodes[i - 1] {
        assert nodes[i - 1] == b && nodes[i] == a;
      } else {
        assert nodes[i] == a && nodes[i + 1] == b;
      }
    }
    if Adjacent(nodes, a, b) {
      var i :| 0 <= i && i + 1 < |nodes| &&
        ((nodes[i] == a && nodes[i + 1] == b) || (nodes[i] == b && nodes[i + 1] == a));
      if nodes[i] == a && nodes[i + 1] == b {
        LineTopologyAt(nodes, i);
      } else {
        LineTopologyAt(nodes, i + 1);
      }
    }
  }

  /** The neighbour relation of the line topology over distinct nodes is symmetric. */
  lemma LineTopologySymmetric(nodes: seq<string>, a: string, b: string)
    requires NoDuplicates(nodes)
    ensures b in GetOr(LineTopology(nodes), a, []) <==> a in GetOr(LineTopology(nodes), b, [])
  {
    LineTopologyAdjacent(nodes, a, b);
    LineTopologyAdjacent(nodes, b, a);
  }

  /** Over two or more distinct nodes, the two ends have one neighbour and
      every interior node has two. */
  lemma LineTopologyDegree(nodes: seq<string>, i: nat)
    requires NoDuplicates(nodes) && |nodes| >= 2 && i < |nodes|
    ensures |GetOr(LineTopology(nodes), nodes[i], [])| == if i == 0 || i == |nodes| - 1 then 1 else 2
  {
    LineTopologyAt(nodes, i);
  }

  /** No node of a distinct list is its own neighbour. */
  lemma LineTopologyIrreflexive(nodes: seq<string>, i: nat)
    requires NoDuplicates(nodes) && i < |nodes|
    ensures nodes[i] !in GetOr(LineTopology(nodes), nodes[i], [])
  {
    LineTopologyAt(nodes, i);
  }
}
