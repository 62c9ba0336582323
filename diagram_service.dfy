/** The trace diagram: edges generated from the trace nodes the session
    host reports (each node lists the ids of the nodes it calls and how
    often), the background colour a node is painted with, and the diagram
    states remembered by title. */
module DiagramService {
  import opened Common

  /** A callee of a trace node: its id and the number of connections. */
  datatype TraceNodeChild = TraceNodeChild(id: string, connectionCount: int)

  datatype TraceNode = TraceNode(id: string, name: string, children: seq<TraceNodeChild>)

  datatype TraceEdge = TraceEdge(from: TraceNode, to: TraceNode, weight: int)

  /** `associateBy { it.id }`: each id maps to the last node carrying it. */
  function NodeMap(nodes: seq<TraceNode>): map<string, TraceNode>
  {
    if nodes == [] then map[]
    else NodeMap(nodes[..|nodes| - 1])[nodes[|nodes| - 1].id := nodes[|nodes| - 1]]
  }

  /** An id is mapped iff some node carries it, and it is mapped to a node
      of the list that carries it. */
  lemma {:induction false} NodeMapMembers(nodes: seq<TraceNode>, id: string)
    ensures id in NodeMap(nodes) <==> exists n :: n in nodes && n.id == id
    ensures id in NodeMap(nodes) ==> NodeMap(nodes)[id] in nodes && NodeMap(nodes)[id].id == id
  {
    if nodes != [] {
      var k := |nodes| - 1;
      NodeMapMembers(nodes[..k], id);
      assert nodes == nodes[..k] + [nodes[k]];
    }
  }

  /** When ids repeat, the last node with the id is the one mapped. */
  lemma {:induction false} NodeMapLastWins(nodes: seq<TraceNode>, i: nat)
    requires i < |nodes|
    requires forall j :: i < j < |nodes| ==> nodes[j].id != nodes[i].id
    ensures nodes[i].id in NodeMap(nodes) && NodeMap(nodes)[nodes[i].id] == nodes[i]
  {
    var k := |nodes| - 1;
    if i < k {
      assert nodes[..k][i] == nodes[i];
      NodeMapLastWins(nodes[..k], i);
    }
  }

  /** The edge for one child: to the mapped node with the child's id and
      weighted by its connection count, or none when no node has the id. */
  function ChildEdge(node: TraceNode, child: TraceNodeChild, nodeMap: map<string, TraceNode>): seq<TraceEdge>
  {
    if child.id in nodeMap then [TraceEdge(node, nodeMap[child.id], child.connectionCount)] else []
  }

  /** The edges of one node, in the order of its children. */
  function ChildEdges(node: TraceNode, children: seq<TraceNodeChild>, nodeMap: map<string, TraceNode>): seq<TraceEdge>
  {
    if children == [] then []
    else ChildEdges(node, children[..|children| - 1], nodeMap) + ChildEdge(node, children[|children| - 1], nodeMap)
  }

  /** The edges of all nodes, by node and then by child. */
  function AllEdges(nodes: seq<TraceNode>, nodeMap: map<string, TraceNode>): seq<TraceEdge>
  {
    if nodes == [] then []
    else AllEdges(nodes[..|nodes| - 1], nodeMap) + ChildEdges(nodes[|nodes| - 1], nodes[|nodes| - 1].children, nodeMap)
  }

  /** The number of child entries over all nodes. */
  function ChildCount(nodes: seq<TraceNode>): nat
  {
    if nodes == [] then 0 else ChildCount(nodes[..|nodes| - 1]) + |nodes[|nodes| - 1].children|
  }

  /** `generateEdges`: for each node and each of its children whose id some
      node carries, an edge from the node to the last node with that id. */
  method GenerateEdges(nodes: seq<TraceNode>) returns (edges: seq<TraceEdge>)
    ensures edges == AllEdges(nodes, NodeMap(nodes))
  {
    edges := [];
    var nodeMap := NodeMap(nodes);
    var i := 0;
    while i < |nodes|
      invariant 0 <= i <= |nodes|
      invariant edges == AllEdges(nodes[..i], nodeMap)
    {
      var node := nodes[i];
      ghost var before := edges;
      var j := 0;
      while j < |node.children|
        invariant 0 <= j <= |node.children|
        invariant edges == before + ChildEdges(node, node.children[..j], nodeMap)
      {
        var child := node.children[j];
        assert node.children[..j + 1][..j] == node.children[..j];
        ConcatAssoc(before, ChildEdges(node, node.children[..j], nodeMap), ChildEdge(node, child, nodeMap));
        if child.id in nodeMap {
          edges := edges + [TraceEdge(node, nodeMap[child.id], child.connectionCount)];
        }
        j := j + 1;
      }
      assert node.children[..j] == node.children;
      assert nodes[..i + 1][..i] == nodes[..i];
      i := i + 1;
    }
    assert nodes[..i] == nodes;
  }

  /** An edge of a node is to a mapped node, for one of its children, with
      that child's connection count; and every mapped child has its edge. */
  lemma {:induction false} ChildEdgesMembers(node: TraceNode, children: seq<TraceNodeChild>,
                                              nodeMap: map<string, TraceNode>, e: TraceEdge)
    ensures e in ChildEdges(node, children, nodeMap) <==>
      exists c :: c in children && c.id in nodeMap && e == TraceEdge(node, nodeMap[c.id], c.connectionCount)
  {
    if children != [] {
      var k := |children| - 1;
      ChildEdgesMembers(node, children[..k], nodeMap, e);
      assert children == children[..k] + [children[k]];
    }
  }

  /** The edges over all nodes are exactly the mapped children's edges. */
  lemma {:induction false} AllEdgesMembers(nodes: seq<TraceNode>, nodeMap: map<string, TraceNode>, e: TraceEdge)
    ensures e in AllEdges(nodes, nodeMap) <==>
      exists n, c :: n in nodes && c in n.children && c.id in nodeMap && e == TraceEdge(n, nodeMap[c.id], c.connectionCount)
  {
    if nodes != [] {
      var k := |nodes| - 1;
      AllEdgesMembers(nodes[..k], nodeMap, e);
      ChildEdgesMembers(nodes[k], nodes[k].children, nodeMap, e);
      assert nodes == nodes[..k] + [nodes[k]];
    }
  }

  /** Every generated edge runs between two of the input nodes, its target
      carries the id of one of the source's children and is the last node
      with that id, and its weight is that child's connection count; a
      child whose id no node carries gives no edge. */
  lemma GeneratedEdgeShape(nodes: seq<TraceNode>, e: TraceEdge)
    requires e in AllEdges(nodes, NodeMap(nodes))
    ensures e.from in nodes && e.to in nodes
    ensures exists c :: c in e.from.children && c.id == e.to.id && c.connectionCount == e.weight
    ensures e.to.id in NodeMap(nodes) && NodeMap(nodes)[e.to.id] == e.to
  {
    AllEdgesMembers(nodes, NodeMap(nodes), e);
    var n, c :| n in nodes && c in n.children && c.id in NodeMap(nodes) &&
      e == TraceEdge(n, NodeMap(nodes)[c.id], c.connectionCount);
    NodeMapMembers(nodes, c.id);
  }

  /** Every child whose id some node carries gives an edge. */
  lemma GeneratedEdgeComplete(nodes: seq<TraceNode>, n: TraceNode, c: TraceNodeChild, target: TraceNode)
    requires n in nodes && c in n.children
    requires target in nodes && target.id == c.id
    ensures c.id in NodeMap(nodes)
    ensures TraceEdge(n, NodeMap(nodes)[c.id], c.connectionCount) in AllEdges(nodes, NodeMap(nodes))
  {
    NodeMapMembers(nodes, c.id);
    AllEdgesMembers(nodes, NodeMap(nodes), TraceEdge(n, NodeMap(nodes)[c.id], c.connectionCount));
  }

  /** There are at most as many edges as child entries. */
  lemma {:induction false} AllEdgesCount(nodes: seq<TraceNode>, nodeMap: map<string, TraceNode>)
    ensures |AllEdges(nodes, nodeMap)| <= ChildCount(nodes)
  {
    if nodes != [] {
      var k := |nodes| - 1;
      AllEdgesCount(nodes[..k], nodeMap);
      ChildEdgesCount(nodes[k], nodes[k].children, nodeMap);
    }
  }

  lemma {:induction false} ChildEdgesCount(node: TraceNode, children: seq<TraceNodeChild>, nodeMap: map<string, TraceNode>)
    ensures |ChildEdges(node, children, nodeMap)| <= |children|
  {
    if children != [] {
      ChildEdgesCount(node, children[..|children| - 1], nodeMap);
    }
  }

  /** The edges of a list of nodes are those of its first part followed by
      those of the rest: edges are ordered by their source's position. */
  lemma {:induction false} AllEdgesAppend(first: seq<TraceNode>, second: seq<TraceNode>, nodeMap: map<string, TraceNode>)
    ensures AllEdges(first + second, nodeMap) == AllEdges(first, nodeMap) + AllEdges(second, nodeMap)
  {
    if second == [] {
      assert first + second == first;
    } else {
      var k := |second| - 1;
      var all := first + second;
      var m := |all| - 1;
      AllEdgesAppend(first, second[..k], nodeMap);
      assert all[..m] == first + second[..k];
      assert all[m] == second[k];
      var last := ChildEdges(second[k], second[k].children, nodeMap);
      assert AllEdges(all, nodeMap) == AllEdges(all[..m], nodeMap) + last;
      assert AllEdges(second, nodeMap) == AllEdges(second[..k], nodeMap) + last;
      assert AllEdges(first, nodeMap) + AllEdges(second[..k], nodeMap) + last ==
             AllEdges(first, nodeMap) + (AllEdges(second[..k], nodeMap) + last);
    }
  }

  datatype Color = Color(red: int, green: int, blue: int)

  /** A colour for the light and for the dark theme. */
  datatype ThemedColor = ThemedColor(light: Color, dark: Color)

  const EntryColor: ThemedColor := ThemedColor(Color(194, 214, 252), Color(53, 116, 240))
  const LeafColor: ThemedColor := ThemedColor(Color(237, 153, 161), Color(122, 67, 67))

  predicate HasIncoming(edges: seq<TraceEdge>, node: TraceNode)
  {
    exists e :: e in edges && e.to == node
  }

  /** A node's background: the entry colour when no edge leads to it, else
      the leaf colour when it has no children, else none. */
  function NodeBackground(edges: seq<TraceEdge>, node: TraceNode): (r: Option<ThemedColor>)
    ensures r == Some(EntryColor) <==> !HasIncoming(edges, node)
    ensures r == Some(LeafColor) <==> HasIncoming(edges, node) && node.children == []
    ensures r.None? <==> HasIncoming(edges, node) && node.children != []
  {
    if !HasIncoming(edges, node) then Some(EntryColor)
    else if node.children == [] then Some(LeafColor)
    else None
  }

  /** In the generated graph an edge leads to a node exactly when some
      child entry names its id and no later node carries the same id. */
  lemma IncomingIffReferenced(nodes: seq<TraceNode>, node: TraceNode)
    requires node in nodes
    ensures node.id in NodeMap(nodes)
    ensures HasIncoming(AllEdges(nodes, NodeMap(nodes)), node) <==>
      NodeMap(nodes)[node.id] == node && exists n, c :: n in nodes && c in n.children && c.id == node.id
  {
    var m := NodeMap(nodes);
    NodeMapMembers(nodes, node.id);
    if HasIncoming(AllEdges(nodes, m), node) {
      var e :| e in AllEdges(nodes, m) && e.to == node;
      GeneratedEdgeShape(nodes, e);
    }
    if m[node.id] == node && exists n, c :: n in nodes && c in n.children && c.id == node.id {
      var n, c :| n in nodes && c in n.children && c.id == node.id;
      GeneratedEdgeComplete(nodes, n, c, node);
    }
  }

  /** A diagram shown in an editor, by identity. */
  datatype DiagramState = DiagramState(id: nat)

  class DiagramService {
    var diagramStates: map<string, DiagramState>

    constructor ()
      ensures diagramStates == map[]
    {
      diagramStates := map[];
    }

    /** Remembers the state of a diagram shown under a title, replacing the
        one shown before under the same title. */
    method StoreState(title: string, state: DiagramState)
      modifies this
      ensures diagramStates == old(diagramStates)[title := state]
      ensures GetDiagramState(title) == Some(state)
      ensures forall t :: t != title ==> GetDiagramState(t) == old(GetDiagramState(t))
    {
      diagramStates := diagramStates[title := state];
    }

    /** The last state stored under the title, if any. */
    function GetDiagramState(title: string): (r: Option<DiagramState>)
      reads this
      ensures r.Some? <==> title in diagramStates
      ensures r.Some? ==> r.value == diagramStates[title]
    {
      if title in diagramStates then Some(diagramStates[title]) else None
    }
  }
}
