/**
 * The shared data model of workflows (BackEnd/src/types/index.ts and
 * FrontEnd/src/types/index.ts).
 */
module Types {
  import opened Wrappers
  import opened JsonValues

  datatype Position = Position(x: int, y: int)

  /** A node's `type` field; `Other` carries any other string. */
  datatype Kind = Trigger | Action | Logic | Ai | Web3 | Other(name: string)

  /** Kinds as they arise from parsing: `Other` never carries a known name. */
  type NodeKind = k: Kind | !k.Other? || k.name !in {"trigger", "action", "logic", "ai", "web3"}
    witness Trigger

  /** The string written in the `type` field. */
  function KindName(k: Kind): string {
    match k
    case Trigger => "trigger"
    case Action => "action"
    case Logic => "logic"
    case Ai => "ai"
    case Web3 => "web3"
    case Other(name) => name
  }

  function ParseKind(s: string): (k: NodeKind)
    ensures KindName(k) == s
  {
    match s
    case "trigger" => Trigger
    case "action" => Action
    case "logic" => Logic
    case "ai" => Ai
    case "web3" => Web3
    case _ => Other(s)
  }

  /** Distinct parsed kinds have distinct names, so parsing a kind's name gives it back. */
  lemma ParseKindName(k: NodeKind)
    ensures ParseKind(KindName(k)) == k
  {
  }

  datatype Node = Node(
    id: string,
    kind: NodeKind,
    name: string,
    position: Option<Position>,
    data: map<string, Json>,
    outputs: Option<seq<string>>)

  datatype Connection = Connection(from: string, to: string)

  datatype Workflow = Workflow(
    id: string,
    name: string,
    nodes: seq<Node>,
    connections: seq<Connection>,
    active: bool)

  /** The per-run execution context: the input, the outputs by node id, an optional error. */
  datatype Context = Context(input: map<string, Json>, output: map<string, Json>, error: Option<string>)
}
