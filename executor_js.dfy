/**
 * The compiled `WorkflowExecutor` of BackEnd/src/engine/executor.js, an older
 * build than executor.ts: no `web3` case, a canned AI response instead of a
 * completion call, and the comparator `a.position?.y - b.position?.y || 0`.
 */
module ExecutorJs {
  import opened Wrappers
  import opened JsonValues
  import opened Types
  import opened NodeOrder
  import opened Engine
  import ExecutorTs

  /** `runNode(node, context)` for the node run at position `step`; `clock` gives the time then. */
  function RunNode(node: Node, step: nat, clock: nat -> string): (r: Result<Json, string>)
    ensures r.Failure? <==> node.kind == Web3 || node.kind.Other?
    ensures r.Failure? ==> r.error == "Unknown node type: " + KindName(node.kind)
    ensures node.kind == Trigger ==> r == Success(JObj(map["triggeredAt" := JStr(clock(step))]))
    ensures node.kind == Action ==>
      && r.Success? && r.value.JObj? && r.value.fields.Keys == {"status", "data"}
      && r.value.fields["status"] == JStr("success") && r.value.fields["data"] == JObj(node.data)
    ensures node.kind == Logic ==>
      && r.Success? && r.value in {JStr("true"), JStr("false")}
      && (r.value == JStr("true") <==> Truthy(Get(node.data, "condition")))
    ensures node.kind == Ai ==>
      && r.Success? && r.value.JObj? && r.value.fields.Keys == {"response"}
      && r.value.fields["response"] == JStr("AI output for " + OptionToText(Get(node.data, "prompt")))
  {
    match node.kind
    case Trigger => Success(JObj(map["triggeredAt" := JStr(clock(step))]))
    case Action => Success(JObj(map["status" := JStr("success"), "data" := JObj(node.data)]))
    case Logic => Success(JStr(if Truthy(Get(node.data, "condition")) then "true" else "false"))
    case Ai => Success(JObj(map["response" := JStr("AI output for " + OptionToText(Get(node.data, "prompt")))]))
    case _ => Failure("Unknown node type: " + KindName(node.kind))
  }

  function Runner(clock: nat -> string): Engine.Runner {
    (step: nat, node: Node) => RunNode(node, step, clock)
  }

  /** `WorkflowExecutor.execute(workflow, input)`; `nodes` is `workflow.nodes`, which the sort reorders. */
  method Execute(nodes: array<Node>, input: map<string, Json>, clock: nat -> string, queue: RetryQueue)
    returns (context: Context)
    modifies nodes, queue
    ensures SortOutcome(CompareByYOrEqual, old(nodes[..]), nodes[..])
    ensures context == Run(nodes[..], input, Runner(clock)).context
    ensures queue.jobs == old(queue.jobs) + Run(nodes[..], input, Runner(clock)).jobs
  {
    SortInPlace(nodes, CompareByYOrEqual);
    context := RunSorted(nodes, input, Runner(clock), queue);
  }

  // ----------------------------------------------------------- properties

  /**
   * The run stops at the first `web3` or unknown node, with the error
   * "Unknown node type: <type>", the outputs of the nodes before it and one
   * retry job for it.
   */
  lemma StopsAtFirstUnsupported(s: seq<Node>, input: map<string, Json>, clock: nat -> string, k: nat)
    requires k < |s| && (s[k].kind == Web3 || s[k].kind.Other?)
    requires forall j :: 0 <= j < k ==> s[j].kind != Web3 && !s[j].kind.Other?
    ensures var out := Run(s, input, Runner(clock));
      && out.context.error == Some("Unknown node type: " + KindName(s[k].kind))
      && out.context.output.Keys == Ids(s[..k])
      && out.jobs == [RetryJobFor(s[k], out.context)]
  {
    RunStopsAtFirstFailure(s, input, Runner(clock), k);
  }

  /** Without `web3` and unknown nodes the run always completes, with an output for every node id. */
  lemma CompletesWithoutUnsupported(s: seq<Node>, input: map<string, Json>, clock: nat -> string)
    requires forall j :: 0 <= j < |s| ==> s[j].kind != Web3 && !s[j].kind.Other?
    ensures Run(s, input, Runner(clock)).context.error == None
    ensures Run(s, input, Runner(clock)).jobs == []
    ensures Run(s, input, Runner(clock)).context.output.Keys == Ids(s)
  {
    RunWithoutFailure(s, input, Runner(clock));
  }

  /** The prompt is not templated: a prompt holding `{{input}}` comes back with it verbatim. */
  lemma AiPromptNotTemplated(node: Node, step: nat, clock: nat -> string, template: string)
    requires node.kind == Ai && Get(node.data, "prompt") == Some(JStr(template))
    ensures RunNode(node, step, clock) == Success(JObj(map["response" := JStr("AI output for " + template)]))
  {
  }

  /**
   * When every node has a position, both builds run the nodes in the same
   * order, and on workflows of trigger, action and logic nodes they return
   * the same context and enqueue nothing.
   */
  lemma BuildsAgreeWhenPositioned(s: seq<Node>, tJs: seq<Node>, tTs: seq<Node>, input: map<string, Json>, env: ExecutorTs.Env)
    requires AllPositioned(s)
    requires SortOutcome(CompareByYOrEqual, s, tJs) && SortOutcome(CompareByY, s, tTs)
    requires forall j :: 0 <= j < |s| ==> s[j].kind in {Trigger, Action, Logic}
    ensures tJs == tTs
    ensures Run(tJs, input, Runner(env.clock)) == Run(tTs, input, ExecutorTs.Runner(input, env))
  {
    CompiledSortMatchesWhenPositioned(s, tJs, tTs);
    assert forall j :: 0 <= j < |tTs| ==> tTs[j].kind in {Trigger, Action, Logic} by {
      forall j | 0 <= j < |tTs| ensures tTs[j].kind in {Trigger, Action, Logic} {
        assert tTs[j] in multiset(tTs);
        var i :| 0 <= i < |s| && s[i] == tTs[j];
      }
    }
    SameRunWhenRunnersAgree(tTs, input, Runner(env.clock), ExecutorTs.Runner(input, env));
  }
}
