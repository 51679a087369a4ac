/**
 * The graph conversion of FrontEnd/src/components/EditorPane.tsx: workflow
 * nodes and connections become React Flow nodes and edges, and saving maps
 * the flow state back into the workflow.
 */
module EditorPane {
  import opened Wrappers
  import opened JsonValues
  import opened Types

  /** A React Flow edge. */
  datatype Edge = Edge(id: string, source: string, target: string)

  /** `{ ...n, type: n.type, data: { label: n.name, ...n.data }, position: n.position ?? { x: 0, y: 0 } }`. */
  function FlowNode(n: Node): Node {
    var position := if n.position.Some? then n.position.value else Position(0, 0);
    n.(data := map["label" := JStr(n.name)] + n.data, position := Some(position))
  }

  function FlowNodes(ns: seq<Node>): (r: seq<Node>)
    ensures |r| == |ns|
    ensures forall i :: 0 <= i < |ns| ==> r[i] == FlowNode(ns[i])
  {
    if ns == [] then [] else [FlowNode(ns[0])] + FlowNodes(ns[1..])
  }

  /** `{ id: `${c.from}-${c.to}`, source: c.from, target: c.to }`. */
  function ToEdge(c: Connection): Edge {
    Edge(c.from + "-" + c.to, c.from, c.to)
  }

  function ToEdges(cs: seq<Connection>): (es: seq<Edge>)
    ensures |es| == |cs|
    ensures forall i :: 0 <= i < |cs| ==> es[i] == ToEdge(cs[i])
  {
    if cs == [] then [] else [ToEdge(cs[0])] + ToEdges(cs[1..])
  }

  /** `{ from: e.source, to: e.target }`. */
  function FromEdge(e: Edge): Connection {
    Connection(e.source, e.target)
  }

  function FromEdges(es: seq<Edge>): (cs: seq<Connection>)
    ensures |cs| == |es|
    ensures forall i :: 0 <= i < |es| ==> cs[i] == FromEdge(es[i])
  {
    if es == [] then [] else [FromEdge(es[0])] + FromEdges(es[1..])
  }

  /** `onSaveWorkflow`: the workflow with the current flow nodes and the edges mapped back. */
  function SaveWorkflow(w: Workflow, nodes: seq<Node>, edges: seq<Edge>): (saved: Workflow)
    ensures saved.id == w.id && saved.name == w.name && saved.active == w.active
    ensures saved.nodes == nodes
    ensures |saved.connections| == |edges|
    ensures forall i :: 0 <= i < |edges| ==>
      saved.connections[i].from == edges[i].source && saved.connections[i].to == edges[i].target
  {
    w.(nodes := nodes, connections := FromEdges(edges))
  }

  // ----------------------------------------------------------- properties

  /** An edge goes from its connection's source to its target, and mapping it back gives the connection. */
  lemma EdgeRoundTrip(c: Connection)
    ensures ToEdge(c).source == c.from && ToEdge(c).target == c.to
    ensures ToEdge(c).id == c.from + "-" + c.to
    ensures FromEdge(ToEdge(c)) == c
  {
  }

  /** Saving without touching the edges gives back the original connections, in order. */
  lemma ConnectionsRoundTrip(w: Workflow, nodes: seq<Node>)
    ensures SaveWorkflow(w, nodes, ToEdges(w.connections)).connections == w.connections
  {
    var saved := SaveWorkflow(w, nodes, ToEdges(w.connections)).connections;
    assert forall i :: 0 <= i < |saved| ==> saved[i] == FromEdge(ToEdge(w.connections[i]));
  }

  /** Saving the untouched editor state changes only `nodes`, and only by the flow-node mapping. */
  lemma SaveUntouched(w: Workflow)
    ensures SaveWorkflow(w, FlowNodes(w.nodes), ToEdges(w.connections))
      == w.(nodes := FlowNodes(w.nodes))
  {
    ConnectionsRoundTrip(w, FlowNodes(w.nodes));
  }

  /**
   * A missing position becomes (0,0) and a present one is kept; the display
   * data is the node's data with `label` added as the name when it has none,
   * so a `label` of its own wins.
   */
  lemma FlowNodeShape(n: Node)
    ensures FlowNode(n).position == (if n.position.Some? then n.position else Some(Position(0, 0)))
    ensures FlowNode(n).data.Keys == n.data.Keys + {"label"}
    ensures forall k :: k in n.data ==> FlowNode(n).data[k] == n.data[k]
    ensures "label" !in n.data ==> FlowNode(n).data["label"] == JStr(n.name)
    ensures FlowNode(n).id == n.id && FlowNode(n).kind == n.kind && FlowNode(n).name == n.name
    ensures FlowNode(n).outputs == n.outputs
  {
  }

  /** Re-opening a saved node in the editor changes nothing more: the mapping is idempotent. */
  lemma FlowNodeIdempotent(n: Node)
    ensures FlowNode(FlowNode(n)) == FlowNode(n)
  {
    var m := FlowNode(n);
    assert map["label" := JStr(m.name)] + m.data == m.data;
  }

  /** Hence opening and saving again, without edits, is stable after the first save. */
  lemma SaveIsStable(w: Workflow)
    ensures var once := SaveWorkflow(w, FlowNodes(w.nodes), ToEdges(w.connections));
      SaveWorkflow(once, FlowNodes(once.nodes), ToEdges(once.connections)) == once
  {
    var once := SaveWorkflow(w, FlowNodes(w.nodes), ToEdges(w.connections));
    SaveUntouched(w);
    SaveUntouched(once);
    forall i | 0 <= i < |w.nodes|
      ensures FlowNodes(once.nodes)[i] == once.nodes[i]
    {
      FlowNodeIdempotent(w.nodes[i]);
    }
  }

  /** Edge ids are not unique: different connections can share one when node ids contain '-'. */
  lemma EdgeIdsCanCollide()
    ensures ToEdge(Connection("a-b", "c")).id == ToEdge(Connection("a", "b-c")).id
    ensures Connection("a-b", "c") != Connection("a", "b-c")
  {
  }
}
