/** The graph store: GraphNode, GraphEdge and GraphModel, which keeps the
    nodes and edges in two append-only lists. */
module Graph {

  /** GraphNodeType */
  datatype NodeType = ProjectNode | FormNode | EventNode | CallTargetNode | ModuleNode | RoutineNode

  /** GraphNode: an id, a type and the label shown for it. */
  datatype Node = Node(id: string, nodeType: NodeType, caption: string)

  /** GraphEdge: the ids of its two ends and its label, the relation it stands for. */
  datatype Edge = Edge(fromId: string, toId: string, relation: string)

  /** GraphModel. Adding never looks at what is already there, so a node
      whose id is already present is stored again. */
  class GraphModel {
    var nodes: seq<Node>
    var edges: seq<Edge>

    /** A fresh model holds no node and no edge. */
    constructor()
      ensures nodes == [] && edges == []
    {
      nodes := [];
      edges := [];
    }

    /** addNode: `node` goes at the end; the edges stay as they are. */
    method AddNode(node: Node)
      modifies this
      ensures nodes == old(nodes) + [node]
      ensures |nodes| == |old(nodes)| + 1
      ensures edges == old(edges)
    {
      nodes := nodes + [node];
    }

    /** addEdge: `edge` goes at the end; the nodes stay as they are. */
    method AddEdge(edge: Edge)
      modifies this
      ensures edges == old(edges) + [edge]
      ensures |edges| == |old(edges)| + 1
      ensures nodes == old(nodes)
    {
      edges := edges + [edge];
    }

    /** nodes(): a copy of the nodes in insertion order. The copy is a value,
        so what is added later does not show in it. */
    method Nodes() returns (snapshot: seq<Node>)
      ensures snapshot == nodes
    {
      snapshot := nodes;
    }

    /** edges(): a copy of the edges in insertion order. */
    method Edges() returns (snapshot: seq<Edge>)
      ensures snapshot == edges
    {
      snapshot := edges;
    }
  }
}
